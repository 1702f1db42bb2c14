/**
 Whole runs of the Koji protocol: which steps leave a null result behind, what holds of
 runs without them, and runs that reach the states the other theorems speak of.
 */
module KojiRuns {
  import opened Wrappers
  import opened Strings
  import opened JobQueue
  import opened Koji
  import opened KojiSafety

  // ----- which steps leave a null result -----

  /** Step `k` of a run is the watcher ending job `id` while a worker holds it. */
  predicate ExpiresAt(c: Compose, steps: seq<Step>, id: Id, k: int) {
    0 <= k < |steps| && steps[k] == Expire(id) && Running(Exec(c, steps[..k]), id)
  }

  /** The watcher ended job `id` at some point of the run. */
  ghost predicate FellSilent(c: Compose, steps: seq<Step>, id: Id) {
    exists k :: ExpiresAt(c, steps, id, k)
  }

  /** Workers never report null. */
  lemma LocalNotNull(c: Compose, s: State, id: Id)
    requires Inv(c, s) && id in s.local
    ensures s.local[id] != Null
  {
    assert JobInv(c, s, id);
    assert id == 0 || c.IsBuild(id) || id == c.Finalize();
  }

  lemma JobStepExpires(c: Compose, s: State, step: Step, id: Id)
    requires id in s.jobs ==> id < s.next
    requires id in s.jobs && s.jobs[id].finished ==> s.jobs[id].started && !s.jobs[id].canceled && s.jobs[id].result.Some?
    requires id in s.local ==> s.local[id] != Null
    ensures Expired(Apply(c, s, step), id) <==> Expired(s, id) || (step == Expire(id) && Running(s, id))
  {
  }

  lemma StepExpires(c: Compose, s: State, step: Step, id: Id)
    requires Inv(c, s)
    ensures Expired(Apply(c, s, step), id) <==> Expired(s, id) || (step == Expire(id) && Running(s, id))
  {
    if id in s.jobs {
      JobFacts(c, s, id);
    }
    if id in s.local {
      LocalNotNull(c, s, id);
    }
    JobStepExpires(c, s, step, id);
  }

  lemma JobFacts(c: Compose, s: State, id: Id)
    requires Inv(c, s) && id in s.jobs
    ensures id < s.next
    ensures s.jobs[id].finished ==> s.jobs[id].started && !s.jobs[id].canceled && s.jobs[id].result.Some?
  {
    assert JobInv(c, s, id);
  }

  /** A job has a null result exactly when the watcher ended it. */
  lemma {:induction false} ExpiredExactly(c: Compose, steps: seq<Step>, id: Id)
    ensures Expired(Exec(c, steps), id) <==> FellSilent(c, steps, id)
  {
    if steps == [] {
      assert !Expired(EMPTY, id);
    } else {
      var init, last := steps[..|steps| - 1], steps[|steps| - 1];
      assert steps == init + [last];
      ExpiredExactly(c, init, id);
      RunStepExpires(c, init, last, id);
      SilentPrefix(c, init, last, id);
    }
  }

  lemma RunStepExpires(c: Compose, init: seq<Step>, last: Step, id: Id)
    ensures Expired(Exec(c, init + [last]), id) <==>
            Expired(Exec(c, init), id) || (last == Expire(id) && Running(Exec(c, init), id))
  {
    RunInv(c, init);
    ExecAppend(c, init, last);
    StepExpires(c, Exec(c, init), last, id);
  }

  lemma SilentPrefix(c: Compose, init: seq<Step>, last: Step, id: Id)
    ensures FellSilent(c, init + [last], id) <==>
            FellSilent(c, init, id) || (last == Expire(id) && Running(Exec(c, init), id))
  {
    var steps := init + [last];
    forall k | 0 <= k < |init| ensures ExpiresAt(c, steps, id, k) <==> ExpiresAt(c, init, id, k) {
      assert steps[..k] == init[..k];
    }
    assert steps[..|init|] == init;
    assert ExpiresAt(c, steps, id, |init|) <==> last == Expire(id) && Running(Exec(c, init), id);
    if k :| ExpiresAt(c, init, id, k) {
      assert ExpiresAt(c, steps, id, k);
    }
    if k :| ExpiresAt(c, steps, id, k) {
      assert k < |init| ==> ExpiresAt(c, init, id, k);
    }
  }

  /** Finalize panics only on a build that fell silent. */
  lemma PanicMeansSilence(c: Compose, steps: seq<Step>)
    requires Panic in Exec(c, steps).log
    ensures exists id :: c.IsBuild(id) && FellSilent(c, steps, id)
  {
    var s := Exec(c, steps);
    RunInv(c, steps);
    PanicRead(c, s);
    FinalizePanicsExactly(c, steps);
    var i :| FirstExpired(c, s, i);
    ExpiredExactly(c, steps, i + 1);
    assert c.IsBuild(i + 1);
  }

  lemma PanicRead(c: Compose, s: State)
    requires Inv(c, s) && Panic in s.log
    ensures var f := c.Finalize();
            && f in s.jobs && s.jobs[f].started && f in s.dyn && |s.dyn[f]| == c.N() + 1
            && HasFailedDependency(AsInit(s.dyn[f][0]), DynBuilds(s.dyn[f])) == Panics
  {
    var k :| 0 <= k < |s.log| && s.log[k] == Panic;
    EventsHold(c, s, k);
    StartedIfHanded(c, s, c.Finalize());
  }

  lemma StartedIfHanded(c: Compose, s: State, id: Id)
    requires Inv(c, s) && id in s.dyn
    ensures id in s.jobs && s.jobs[id].started
  {
    assert JobInv(c, s, id);
  }

  // ----- runs without the watcher -----

  /** Results come from the workers' updates alone. */
  predicate NoExpiry(steps: seq<Step>) {
    forall k :: 0 <= k < |steps| ==> !steps[k].Expire?
  }

  lemma NothingExpired(c: Compose, steps: seq<Step>, id: Id)
    requires NoExpiry(steps)
    ensures !Expired(Exec(c, steps), id)
  {
    ExpiredExactly(c, steps, id);
  }

  predicate ImageSucceeded(s: State, i: nat) {
    i + 1 in s.jobs && ImageStatus(s, i) == Success
  }

  /**
   When no worker falls silent, finalize never reads a missing output, a finished compose is
   a success exactly when the import returned no error, and then all its images are too.
   */
  lemma WithoutExpiry(c: Compose, steps: seq<Step>)
    requires NoExpiry(steps)
    ensures var s := Exec(c, steps);
            && Panic !in s.log
            && (Done(s.jobs, c.Finalize()) ==> (ComposeStatus(c, s) == Success <==> Imported(s)))
            && (c.Finalize() in s.jobs && ComposeStatus(c, s) == Success ==>
                  forall i :: 0 <= i < c.N() ==> ImageSucceeded(s, i))
  {
    var s := Exec(c, steps);
    forall id: Id ensures !Expired(s, id) {
      NothingExpired(c, steps, id);
    }
    if Panic in s.log {
      PanicMeansSilence(c, steps);
    }
    if Done(s.jobs, c.Finalize()) {
      SuccessExactly(c, steps);
    }
    if c.Finalize() in s.jobs && ComposeStatus(c, s) == Success {
      forall i | 0 <= i < c.N() ensures ImageSucceeded(s, i) {
        SuccessfulImages(c, steps, i);
      }
    }
  }

  // ----- init before import -----

  /** Init had begun a Koji build, and the import at `k` carries its token. */
  predicate BeganWith(s: State, k: int)
    requires 0 <= k < |s.log| && s.log[k].Import?
  {
    && 0 in s.jobs && Reported(s.jobs[0]).InitJson?
    && var init := Reported(s.jobs[0]).init;
       init.kojiError == "" && Begun(init.buildID, init.token) in s.log[..k] && s.log[k].token == init.token
  }

  /**
   At an import init had succeeded before, and the import carries its token, exactly when
   the watcher did not end init. Otherwise the import goes out with an empty token.
   */
  lemma ImportAfterInit(c: Compose, steps: seq<Step>, k: int)
    requires 0 <= k < |Exec(c, steps).log| && Exec(c, steps).log[k].Import?
    ensures BeganWith(Exec(c, steps), k) <==> !FellSilent(c, steps, 0)
    ensures FellSilent(c, steps, 0) ==> Exec(c, steps).log[k].token == ""
  {
    var s := Exec(c, steps);
    RunInv(c, steps);
    EventsHold(c, s, k);
    assert JobInv(c, s, c.Finalize());
    FinalizeInputs(c, s);
    ExpiredExactly(c, steps, 0);
    InitReported(c, s);
  }

  /** A finished init job reported an init result, or null. */
  lemma InitReported(c: Compose, s: State)
    requires Inv(c, s) && c.Finalize() in s.dyn && |s.dyn[c.Finalize()]| == c.N() + 1
    ensures 0 in s.jobs && s.dyn[c.Finalize()][0] == Reported(s.jobs[0])
    ensures Reported(s.jobs[0]).InitJson? <==> !Expired(s, 0)
  {
    var f := c.Finalize();
    assert JobInv(c, s, f);
    assert c.Deps(f)[0] == 0 && Done(s.jobs, 0);
    assert JobInv(c, s, 0);
  }

  // ----- runs that get to finalize -----

  /** The file Koji answers an upload with. */
  datatype KojiFile = KojiFile(hash: string, size: nat)

  /** How a build ends in the runs below: with an upload of this file, or by falling silent. */
  type Fate = Option<KojiFile>

  /** How init ends: with a Koji build, or by falling silent. */
  function InitRaw(init: Option<InitCall>): Raw {
    match init
    case None => Null
    case Some(call) => InitJson(InitResult(call.buildID, call.token, ""))
  }

  function BuildRaw(fate: Fate): Raw {
    match fate
    case None => Null
    case Some(file) => BuildJson(BuildResult(Some(true), file.hash, file.size, ""))
  }

  /** Enqueued and not touched yet. */
  predicate Untouched(c: Compose, s: State, id: Id) {
    && id in s.jobs && s.jobs[id] == NewJob("", c.Deps(id)) && id !in s.dyn && id !in s.local
    && id in s.args && s.args[id] == c.ArgsOf(id)
  }

  function EndedJob(c: Compose, id: Id, raw: Raw): Job<Raw> {
    Job("", c.Deps(id), true, true, false, Some(raw))
  }

  predicate BuildEnded(c: Compose, s: State, i: nat, fate: Fate) {
    i + 1 in s.jobs && s.jobs[i + 1] == EndedJob(c, i + 1, BuildRaw(fate))
  }

  /** Init and the first `n` builds have ended. */
  predicate Progress(c: Compose, s: State, init: Raw, fates: seq<Fate>, n: nat)
    requires n <= |fates| == c.N()
  {
    && s.next == c.Finalize() + 1
    && 0 in s.jobs && s.jobs[0] == EndedJob(c, 0, init)
    && (forall i :: 0 <= i < n ==> BuildEnded(c, s, i, fates[i]))
    && (forall id :: n < id <= c.Finalize() ==> Untouched(c, s, id))
  }

  /** One job ends with `raw`, and nothing else happens to the others. */
  ghost predicate Ends(c: Compose, s: State, s': State, id: Id, raw: Raw) {
    && s'.next == s.next && s'.jobs == s.jobs[id := EndedJob(c, id, raw)] && s'.args == s.args
    && (forall x :: x != id ==> (x in s'.dyn <==> x in s.dyn) && (x in s'.local <==> x in s.local))
  }

  /** A worker takes an untouched job whose dependencies have finished. */
  lemma Take(c: Compose, s: State, id: Id)
    requires Untouched(c, s, id) && DepsFinished(s.jobs, c.Deps(id))
    ensures Apply(c, s, Dequeue(id)) ==
            s.(jobs := s.jobs[id := Job("", c.Deps(id), true, false, false, None)],
               dyn := s.dyn[id := Results(s.jobs, c.Deps(id))])
  {
  }

  lemma TakeAndExpire(c: Compose, s: State, id: Id)
    requires Untouched(c, s, id) && DepsFinished(s.jobs, c.Deps(id))
    ensures Ends(c, s, Apply(c, Apply(c, s, Dequeue(id)), Expire(id)), id, Null)
  {
    Take(c, s, id);
  }

  /** A worker that has computed a result reports it. */
  lemma Report(c: Compose, s: State, id: Id)
    requires id in s.jobs && s.jobs[id] == Job("", c.Deps(id), true, false, false, None) && id in s.local
    ensures Apply(c, s, Update(id)) == s.(jobs := s.jobs[id := EndedJob(c, id, s.local[id])])
  {
  }

  lemma TakeAndInit(c: Compose, s: State, call: InitCall)
    requires Untouched(c, s, 0)
    ensures var s' := Apply(c, Apply(c, Apply(c, s, Dequeue(0)), WorkInit(Ok(call))), Update(0));
            Ends(c, s, s', 0, InitRaw(Some(call)))
  {
    Take(c, s, 0);
    var worked := Apply(c, Apply(c, s, Dequeue(0)), WorkInit(Ok(call)));
    assert worked.local == s.local[0 := InitRaw(Some(call))];
    Report(c, worked, 0);
  }

  lemma TakeAndBuild(c: Compose, s: State, i: nat, file: KojiFile)
    requires i < c.N() && Untouched(c, s, i + 1) && Done(s.jobs, 0) && AsInit(Reported(s.jobs[0])).kojiError == ""
    ensures var s' := Apply(c, Apply(c, Apply(c, s, Dequeue(i + 1)), WorkBuild(i, Uploaded(file.hash, file.size))), Update(i + 1));
            Ends(c, s, s', i + 1, BuildRaw(Some(file)))
  {
    assert c.Deps(i + 1) == [0];
    Take(c, s, i + 1);
    var taken := Apply(c, s, Dequeue(i + 1));
    assert taken.dyn[i + 1] == [Reported(s.jobs[0])];
    var worked := Apply(c, taken, WorkBuild(i, Uploaded(file.hash, file.size)));
    assert worked.local == s.local[i + 1 := BuildRaw(Some(file))];
    Report(c, worked, i + 1);
  }

  /** The first `n` jobs have been enqueued, and nothing else has happened. */
  ghost predicate AllPosted(c: Compose, s: State, n: nat) {
    s.next == n && s.dyn == map[] && s.local == map[] && forall id :: 0 <= id < n ==> Untouched(c, s, id)
  }

  lemma PostOne(c: Compose, s: State, n: nat)
    requires n <= c.Finalize() && AllPosted(c, s, n)
    ensures AllPosted(c, Apply(c, s, Enqueue), n + 1)
  {
    var s' := Apply(c, s, Enqueue);
    forall id | 0 <= id < n + 1 ensures Untouched(c, s', id) {
      assert id < n ==> Untouched(c, s, id);
    }
  }

  lemma {:induction false} Posted(c: Compose, n: nat) returns (steps: seq<Step>)
    requires n <= c.Finalize() + 1
    ensures AllPosted(c, Exec(c, steps), n)
  {
    steps := [];
    if n > 0 {
      var before := Posted(c, n - 1);
      ExecAppend(c, before, Enqueue);
      PostOne(c, Exec(c, before), n - 1);
      steps := before + [Enqueue];
    }
  }

  lemma ProgressNext(c: Compose, s: State, s': State, init: Raw, fates: seq<Fate>, n: nat)
    requires n < |fates| == c.N() && Progress(c, s, init, fates, n) && Ends(c, s, s', n + 1, BuildRaw(fates[n]))
    ensures Progress(c, s', init, fates, n + 1)
  {
    forall id | n + 1 < id <= c.Finalize() ensures Untouched(c, s', id) {
      assert Untouched(c, s, id);
    }
    forall i | 0 <= i < n + 1 ensures BuildEnded(c, s', i, fates[i]) {
      assert i < n ==> BuildEnded(c, s, i, fates[i]);
    }
  }

  lemma InitEnded(c: Compose, init: Option<InitCall>, fates: seq<Fate>) returns (steps: seq<Step>)
    requires |fates| == c.N()
    ensures Progress(c, Exec(c, steps), InitRaw(init), fates, 0)
  {
    steps := Posted(c, c.Finalize() + 1);
    var s := Exec(c, steps);
    assert Untouched(c, s, 0);
    ExecAppend(c, steps, Dequeue(0));
    steps := steps + [Dequeue(0)];
    match init {
      case None =>
        TakeAndExpire(c, s, 0);
        ExecAppend(c, steps, Expire(0));
        steps := steps + [Expire(0)];
      case Some(call) =>
        TakeAndInit(c, s, call);
        ExecAppend(c, steps, WorkInit(Ok(call)));
        steps := steps + [WorkInit(Ok(call))];
        ExecAppend(c, steps, Update(0));
        steps := steps + [Update(0)];
    }
    assert Ends(c, s, Exec(c, steps), 0, InitRaw(init));
    forall id | 0 < id <= c.Finalize() ensures Untouched(c, Exec(c, steps), id) {
      assert Untouched(c, s, id);
    }
  }

  /** The steps by which build `i` meets its fate. */
  function BuildSteps(i: nat, fate: Fate): seq<Step> {
    match fate
    case None => [Dequeue(i + 1), Expire(i + 1)]
    case Some(file) => [Dequeue(i + 1), WorkBuild(i, Uploaded(file.hash, file.size)), Update(i + 1)]
  }

  lemma BuildEnds(c: Compose, steps: seq<Step>, i: nat, fate: Fate)
    requires i < c.N() && Untouched(c, Exec(c, steps), i + 1)
    requires Done(Exec(c, steps).jobs, 0) && AsInit(Reported(Exec(c, steps).jobs[0])).kojiError == ""
    ensures Ends(c, Exec(c, steps), Exec(c, steps + BuildSteps(i, fate)), i + 1, BuildRaw(fate))
  {
    match fate
    case None =>
      assert c.Deps(i + 1) == [0];
      TakeAndExpire(c, Exec(c, steps), i + 1);
      TwoSteps(c, steps, Dequeue(i + 1), Expire(i + 1));
    case Some(file) =>
      TakeAndBuild(c, Exec(c, steps), i, file);
      TwoSteps(c, steps, Dequeue(i + 1), WorkBuild(i, Uploaded(file.hash, file.size)));
      ExecAppend(c, steps + [Dequeue(i + 1), WorkBuild(i, Uploaded(file.hash, file.size))], Update(i + 1));
      assert steps + BuildSteps(i, fate) == steps + [Dequeue(i + 1), WorkBuild(i, Uploaded(file.hash, file.size))] + [Update(i + 1)];
  }

  lemma TwoSteps(c: Compose, steps: seq<Step>, one: Step, two: Step)
    ensures Exec(c, steps + [one, two]) == Apply(c, Apply(c, Exec(c, steps), one), two)
  {
    AppendTwo(steps, one, two);
    ExecAppend(c, steps, one);
    ExecAppend(c, steps + [one], two);
  }

  lemma AppendTwo<T>(s: seq<T>, a: T, b: T)
    ensures s + [a, b] == s + [a] + [b]
  {
  }

  /** For every compose and every choice of fates there is a run in which init and all builds end so. */
  lemma {:induction false} Prepared(c: Compose, init: Option<InitCall>, fates: seq<Fate>, n: nat) returns (steps: seq<Step>)
    requires n <= |fates| == c.N()
    ensures Progress(c, Exec(c, steps), InitRaw(init), fates, n)
  {
    if n == 0 {
      steps := InitEnded(c, init, fates);
    } else {
      var before := Prepared(c, init, fates, n - 1);
      var s := Exec(c, before);
      assert Untouched(c, s, n);
      BuildEnds(c, before, n - 1, fates[n - 1]);
      steps := before + BuildSteps(n - 1, fates[n - 1]);
      ProgressNext(c, s, Exec(c, steps), InitRaw(init), fates, n - 1);
    }
  }

  /** With all builds ended, finalize is ready and sees their fates. */
  lemma ReadyToFinalize(c: Compose, s: State, init: Raw, fates: seq<Fate>)
    requires |fates| == c.N() && Progress(c, s, init, fates, c.N())
    ensures Untouched(c, s, c.Finalize()) && Ready(s.jobs, c.Finalize()) && Reported(s.jobs[0]) == init && Done(s.jobs, 0)
    ensures forall i :: 0 <= i < c.N() ==> BuildOf(s, i) == AsBuild(BuildRaw(fates[i])) && (fates[i].None? ==> Expired(s, i + 1))
  {
    assert Untouched(c, s, c.Finalize());
    forall d | d in c.Deps(c.Finalize()) ensures Done(s.jobs, d) {
      if d > 0 {
        assert BuildEnded(c, s, d - 1, fates[d - 1]);
      }
    }
    forall i | 0 <= i < c.N() ensures BuildOf(s, i) == AsBuild(BuildRaw(fates[i])) && (fates[i].None? ==> Expired(s, i + 1)) {
      assert BuildEnded(c, s, i, fates[i]);
    }
  }

  /** What finalize is handed in such a run. */
  lemma FinalizeHanded(c: Compose, s: State, init: Raw, fates: seq<Fate>)
    requires |fates| == c.N() && Progress(c, s, init, fates, c.N())
    ensures var dyn := Results(s.jobs, c.Deps(c.Finalize()));
            && |dyn| == c.N() + 1 && dyn[0] == init
            && forall i :: 0 <= i < c.N() ==> DynBuilds(dyn)[i] == AsBuild(BuildRaw(fates[i]))
  {
    var deps := c.Deps(c.Finalize());
    var dyn := Results(s.jobs, deps);
    assert deps[0] == 0;
    forall i | 0 <= i < c.N() ensures DynBuilds(dyn)[i] == AsBuild(BuildRaw(fates[i])) {
      assert deps[i + 1] == i + 1;
      assert BuildEnded(c, s, i, fates[i]);
    }
  }

  function AllUpload(files: seq<KojiFile>): (fates: seq<Fate>)
    ensures |fates| == |files| && forall i :: 0 <= i < |fates| ==> fates[i] == Some(files[i])
  {
    seq(|files|, i requires 0 <= i < |files| => Some(files[i]))
  }

  /** Finalize imports when all builds it is handed have uploaded. */
  lemma TakeAndImport(c: Compose, s: State, init: Option<InitCall>, files: seq<KojiFile>)
    requires |files| == c.N() && Progress(c, s, InitRaw(init), AllUpload(files), c.N())
    ensures var s' := Apply(c, Apply(c, s, Dequeue(c.Finalize())), WorkFinalize(""));
            && |s'.log| == |s.log| + 1 && s'.log[|s.log|].Import? && s'.log[|s.log|].error == ""
            && |s'.log[|s.log|].images| == c.N()
            && forall i :: 0 <= i < c.N() ==> s'.log[|s.log|].images[i].hash == files[i].hash && s'.log[|s.log|].images[i].size == files[i].size
  {
    var f := c.Finalize();
    ReadyToFinalize(c, s, InitRaw(init), AllUpload(files));
    FinalizeHanded(c, s, InitRaw(init), AllUpload(files));
    Take(c, s, f);
    var dyn := Results(s.jobs, c.Deps(f));
    CheckBuildsMeaning(DynBuilds(dyn));
    assert HasFailedDependency(AsInit(dyn[0]), DynBuilds(dyn)) == Clean;
    var taken := Apply(c, s, Dequeue(f));
    assert Apply(c, taken, WorkFinalize("")).log == s.log + [Seen(FinalizeCall(c.directory, c.filenames, dyn), "")];
  }

  /** Every compose, whatever Koji answers to init and to the uploads, has a run that ends in a successful import of exactly that. */
  lemma ImportHappens(c: Compose, init: Option<InitCall>, files: seq<KojiFile>) returns (steps: seq<Step>, k: int)
    requires |files| == c.N()
    ensures var s := Exec(c, steps);
            && 0 <= k < |s.log| && s.log[k].Import? && s.log[k].error == "" && |s.log[k].images| == c.N()
            && forall i :: 0 <= i < c.N() ==> s.log[k].images[i].hash == files[i].hash && s.log[k].images[i].size == files[i].size
    ensures FellSilent(c, steps, 0) <==> init.None?
    ensures init.Some? ==> BeganWith(Exec(c, steps), k) && Exec(c, steps).log[k].token == init.value.token
  {
    var f := c.Finalize();
    var before := Prepared(c, init, AllUpload(files), c.N());
    var s := Exec(c, before);
    ReadyToFinalize(c, s, InitRaw(init), AllUpload(files));
    TakeAndImport(c, s, init, files);
    ExecAppend(c, before, Dequeue(f));
    ExecAppend(c, before + [Dequeue(f)], WorkFinalize(""));
    steps := before + [Dequeue(f)] + [WorkFinalize("")];
    k := |s.log|;
    DoneStays(c, before, [Dequeue(f)] + [WorkFinalize("")], 0);
    assert before + ([Dequeue(f)] + [WorkFinalize("")]) == steps;
    ExpiredExactly(c, steps, 0);
    ImportAfterInit(c, steps, k);
  }

  /** When init falls silent, every compose has a run that imports with an empty token and no Koji build of its own. */
  lemma SilentInitImports(c: Compose) returns (steps: seq<Step>, k: int)
    ensures var s := Exec(c, steps);
            && 0 <= k < |s.log| && s.log[k].Import? && s.log[k].error == "" && s.log[k].token == "" && !BeganWith(s, k)
  {
    steps, k := ImportHappens(c, None, seq(c.N(), i => KojiFile("", 0)));
    ImportAfterInit(c, steps, k);
  }

  // ----- what Koji holds under the imported names -----

  /** At the import at `k`, Koji holds every listed file under its name. */
  predicate AllStored(c: Compose, log: seq<Event>, k: int)
    requires 0 <= k < |log| && log[k].Import? && |log[k].images| == c.N()
  {
    forall i :: 0 <= i < c.N() ==> StoredAs(c, log[..k], log[k].images, i)
  }

  ghost predicate EveryImportStored(c: Compose) {
    forall steps, k :: StoredAt(c, steps, k)
  }

  predicate StoredAt(c: Compose, steps: seq<Step>, k: int) {
    var log := Exec(c, steps).log;
    0 <= k < |log| && log[k].Import? && |log[k].images| == c.N() ==> AllStored(c, log, k)
  }

  /** In every run every import finds its files in Koji if and only if no file name is used twice. */
  lemma StoredExactly(c: Compose)
    ensures EveryImportStored(c) <==> NoDup(c.filenames)
  {
    if NoDup(c.filenames) {
      forall steps, k ensures StoredAt(c, steps, k) {
        DistinctAreStored(c, steps, k);
      }
    } else {
      var p, q :| 0 <= p < q < c.N() && c.filenames[p] == c.filenames[q];
      var steps, k := OverwrittenUpload(c, p, q);
      assert !StoredAt(c, steps, k);
    }
  }

  lemma DistinctAreStored(c: Compose, steps: seq<Step>, k: int)
    requires NoDup(c.filenames)
    ensures StoredAt(c, steps, k)
  {
    var log := Exec(c, steps).log;
    if 0 <= k < |log| && log[k].Import? {
      ImportedFilesAreStored(c, steps, k);
    }
  }

  /** Two builds of one file name that upload different files: one of them is not there at the import. */
  lemma OverwrittenUpload(c: Compose, p: nat, q: nat) returns (steps: seq<Step>, k: int)
    requires p < q < c.N() && c.filenames[p] == c.filenames[q]
    ensures !StoredAt(c, steps, k)
  {
    var files := seq(c.N(), i => if i == p then KojiFile("a", 1) else KojiFile("b", 2));
    steps, k := ImportHappens(c, Some(InitCall("token", 7)), files);
    var images := Exec(c, steps).log[k].images;
    assert images[p].hash == "a" && images[q].hash == "b";
    ImportedFilesAreStored(c, steps, k);
    assert !SameNameSameFile(c, images);
  }

  // ----- what the watcher does to a compose -----

  /**
   Whenever finalize is ready and its dependencies look clean, a worker that takes
   the job and falls silent turns the compose into a success without any import.
   */
  lemma SilentFinalizeLooksSuccessful(c: Compose, steps: seq<Step>)
    requires var s := Exec(c, steps); Ready(s.jobs, c.Finalize()) && DepsLookClean(c, s)
    ensures var s' := Exec(c, steps + [Dequeue(c.Finalize())] + [Expire(c.Finalize())]);
            && c.Finalize() in s'.jobs && ComposeStatus(c, s') == Success
            && forall k :: 0 <= k < |s'.log| ==> !s'.log[k].Import?
  {
    var f := c.Finalize();
    var s := Exec(c, steps);
    RunInv(c, steps);
    ExecAppend(c, steps, Dequeue(f));
    ExecAppend(c, steps + [Dequeue(f)], Expire(f));
    NotTakenYet(c, s);
    TakenAndExpired(c, s);
    forall k | 0 <= k < |s.log| ensures !s.log[k].Import? {
      NotActedYet(c, s, k);
    }
    SuccessOnceExpired(c, s, Exec(c, steps + [Dequeue(f)] + [Expire(f)]));
  }

  lemma TakenAndExpired(c: Compose, s: State)
    requires Ready(s.jobs, c.Finalize()) && !s.jobs[c.Finalize()].finished
    ensures var f := c.Finalize();
            var s' := Apply(c, Apply(c, s, Dequeue(f)), Expire(f));
            && s'.jobs == s.jobs[f := s.jobs[f].(started := true, finished := true, result := Some(Null))]
            && s'.log == s.log
  {
  }

  lemma NotTakenYet(c: Compose, s: State)
    requires Inv(c, s) && Ready(s.jobs, c.Finalize())
    ensures c.Finalize() !in s.local && !s.jobs[c.Finalize()].finished
  {
    assert JobInv(c, s, c.Finalize());
  }

  lemma SuccessOnceExpired(c: Compose, s: State, s': State)
    requires c.Finalize() in s.jobs && !s.jobs[c.Finalize()].canceled && DepsLookClean(c, s)
    requires s'.jobs == s.jobs[c.Finalize() := s.jobs[c.Finalize()].(started := true, finished := true, result := Some(Null))]
    ensures ComposeStatus(c, s') == Success
  {
    assert InitOf(s') == InitOf(s);
    assert forall j :: 0 <= j < c.N() ==> BuildOf(s', j) == BuildOf(s, j);
  }

  /** Every compose has a run that gets there. */
  lemma SilentFinalizeHappens(c: Compose) returns (steps: seq<Step>)
    ensures var s := Exec(c, steps); Ready(s.jobs, c.Finalize()) && DepsLookClean(c, s)
  {
    var fates := AllUpload(seq(c.N(), i => KojiFile("", 0)));
    steps := Prepared(c, Some(InitCall("token", 7)), fates, c.N());
    ReadyToFinalize(c, Exec(c, steps), InitRaw(Some(InitCall("token", 7))), fates);
  }

  /**
   When finalize is ready, its dependencies look clean and some build was ended by
   the watcher, the worker that takes finalize panics; the watcher then ends finalize
   too, and the compose is shown as a success with a failed image and no import.
   */
  lemma ExpiredBuildLooksSuccessful(c: Compose, steps: seq<Step>, i: nat, error: string)
    requires var s := Exec(c, steps); Ready(s.jobs, c.Finalize()) && DepsLookClean(c, s) && FirstExpired(c, s, i)
    ensures var s' := Exec(c, steps + [Dequeue(c.Finalize())] + [WorkFinalize(error)] + [Expire(c.Finalize())]);
            && c.Finalize() in s'.jobs && ComposeStatus(c, s') == Success
            && i + 1 in s'.jobs && ImageStatus(s', i) == Failure
            && Panic in s'.log && forall k :: 0 <= k < |s'.log| ==> !s'.log[k].Import?
  {
    var f := c.Finalize();
    var s := Exec(c, steps);
    RunInv(c, steps);
    ExecAppend(c, steps, Dequeue(f));
    var taken := steps + [Dequeue(f)];
    TakenStillExpired(c, s, i);
    RunInv(c, taken);
    FinalizePanicsExactly(c, taken);
    ExecAppend(c, taken, WorkFinalize(error));
    ExecAppend(c, taken + [WorkFinalize(error)], Expire(f));
    PanicThenExpire(c, Exec(c, taken), i, error);
  }

  /** Taking finalize leaves everything else as it was. */
  lemma TakenStillExpired(c: Compose, s: State, i: nat)
    requires Inv(c, s) && Ready(s.jobs, c.Finalize()) && DepsLookClean(c, s) && FirstExpired(c, s, i)
    ensures var s' := Apply(c, s, Dequeue(c.Finalize()));
            && DepsLookClean(c, s') && FirstExpired(c, s', i)
            && c.Finalize() in s'.jobs && s'.jobs[c.Finalize()].started && !s'.jobs[c.Finalize()].finished
            && !s'.jobs[c.Finalize()].canceled && c.Finalize() !in s'.local
  {
    NotTakenYet(c, s);
    TakenShowsSame(c, s, Apply(c, s, Dequeue(c.Finalize())), i);
  }

  /** Starting a job changes nothing that the statuses are read from. */
  lemma TakenShowsSame(c: Compose, s: State, s': State, i: nat)
    requires c.Finalize() in s.jobs && s'.jobs == Start(s.jobs, c.Finalize())
    requires DepsLookClean(c, s) && FirstExpired(c, s, i)
    ensures DepsLookClean(c, s') && FirstExpired(c, s', i)
  {
    assert forall id :: id in s.jobs ==> id in s'.jobs && Reported(s'.jobs[id]) == Reported(s.jobs[id]);
    assert InitOf(s') == InitOf(s);
    assert forall j :: 0 <= j < c.N() ==> BuildOf(s', j) == BuildOf(s, j);
  }

  lemma PanicThenExpire(c: Compose, s: State, i: nat, error: string)
    requires Inv(c, s) && DepsLookClean(c, s) && FirstExpired(c, s, i)
    requires c.Finalize() in s.jobs && s.jobs[c.Finalize()].started && !s.jobs[c.Finalize()].finished
    requires !s.jobs[c.Finalize()].canceled && c.Finalize() !in s.local
    requires c.Finalize() in s.dyn && |s.dyn[c.Finalize()]| == c.N() + 1
    requires HasFailedDependency(AsInit(s.dyn[c.Finalize()][0]), DynBuilds(s.dyn[c.Finalize()])) == Panics
    ensures var s' := Apply(c, Apply(c, s, WorkFinalize(error)), Expire(c.Finalize()));
            && c.Finalize() in s'.jobs && ComposeStatus(c, s') == Success
            && i + 1 in s'.jobs && ImageStatus(s', i) == Failure
            && Panic in s'.log && forall k :: 0 <= k < |s'.log| ==> !s'.log[k].Import?
  {
    ArgsHold(c, s, c.Finalize());
    PanicExpireState(c, s, error);
    forall k | 0 <= k < |s.log| ensures !s.log[k].Import? {
      NotActedYet(c, s, k);
    }
    assert JobInv(c, s, i + 1);
    StatusesOnceExpired(c, s, Apply(c, Apply(c, s, WorkFinalize(error)), Expire(c.Finalize())), i);
  }

  lemma PanicExpireState(c: Compose, s: State, error: string)
    requires c.Finalize() in s.jobs && s.jobs[c.Finalize()].started && !s.jobs[c.Finalize()].finished
    requires !s.jobs[c.Finalize()].canceled && c.Finalize() !in s.local
    requires c.Finalize() in s.dyn && |s.dyn[c.Finalize()]| == c.N() + 1
    requires HasFailedDependency(AsInit(s.dyn[c.Finalize()][0]), DynBuilds(s.dyn[c.Finalize()])) == Panics
    requires HasArgs(c, s, c.Finalize())
    ensures var s' := Apply(c, Apply(c, s, WorkFinalize(error)), Expire(c.Finalize()));
            && s'.jobs == s.jobs[c.Finalize() := s.jobs[c.Finalize()].(finished := true, result := Some(Null))]
            && s'.log == s.log + [Panic] && s'.log[|s.log|] == Panic
  {
  }

  /** The statuses shown once the watcher has ended finalize. */
  lemma StatusesOnceExpired(c: Compose, s: State, s': State, i: nat)
    requires c.Finalize() in s.jobs && !s.jobs[c.Finalize()].canceled
    requires s'.jobs == s.jobs[c.Finalize() := s.jobs[c.Finalize()].(finished := true, result := Some(Null))]
    requires s.jobs[c.Finalize()].started
    requires DepsLookClean(c, s) && FirstExpired(c, s, i) && s.jobs[i + 1].started && !s.jobs[i + 1].canceled
    ensures ComposeStatus(c, s') == Success && i + 1 in s'.jobs && ImageStatus(s', i) == Failure
  {
    SuccessOnceExpired(c, s, s');
    assert InitOf(s') == InitOf(s);
    assert s'.jobs[i + 1] == s.jobs[i + 1];
  }

  /** Every compose has a run in which build `i` is the only one that fell silent. */
  lemma ExpiredBuildHappens(c: Compose, i: nat) returns (steps: seq<Step>)
    requires i < c.N()
    ensures var s := Exec(c, steps); Ready(s.jobs, c.Finalize()) && DepsLookClean(c, s) && FirstExpired(c, s, i)
  {
    var fates := seq(c.N(), j => if j == i then None else Some(KojiFile("", 0)));
    steps := Prepared(c, Some(InitCall("token", 7)), fates, c.N());
    ReadyToFinalize(c, Exec(c, steps), InitRaw(Some(InitCall("token", 7))), fates);
    assert fates[i] == None && forall j :: 0 <= j < i ==> fates[j] == Some(KojiFile("", 0));
  }
}
