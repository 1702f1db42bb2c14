/** How often the file-system queue hands out a job, over every run from an empty queue. */
module JobQueueRuns {
  import opened Wrappers
  import opened Strings
  import opened JobQueue
  import opened FsJobQueue

  /** One operation under the queue's lock. `Receive` takes the head of one channel. */
  datatype Step<R> =
    | Add(id: Id, jobType: string, deps: seq<Id>)
    | Receive(jobType: string)
    | End(id: Id, result: R)
    | Stop(id: Id)

  /**
   The queue with its history: the jobs in the order they finished, how many of those had
   finished when a job was enqueued, the ids received from channels, and among them the
   ids handed to a worker.
   */
  datatype System<R> = System(m: Memory<R>, done: seq<Id>, born: map<Id, nat>, received: seq<Id>, handed: seq<Id>)

  function Apply<R>(s: System<R>, step: Step<R>): System<R> {
    match step
    case Add(id, jobType, deps) =>
      var m := EnqueueIn(s.m, id, jobType, deps);
      if id in s.m.jobs || id !in m.jobs then s else s.(m := m, born := s.born[id := |s.done|])
    case Receive(t) =>
      if Channel(s.m.pending, t) == [] then s
      else
        var id := s.m.pending[t][0];
        s.(m := ReceiveIn(s.m, t), received := s.received + [id],
           handed := if id in s.m.jobs && !s.m.jobs[id].canceled then s.handed + [id] else s.handed)
    case End(id, result) =>
      if Finish(s.m.jobs, id, result).Changed? then s.(m := FinishIn(s.m, id, result), done := s.done + [id]) else s
    case Stop(id) => s.(m := CancelIn(s.m, id))
  }

  function Exec<R>(steps: seq<Step<R>>): System<R> {
    if steps == [] then System(Memory(map[], map[], map[]), [], map[], [], [])
    else Apply(Exec(steps[..|steps| - 1]), steps[|steps| - 1])
  }

  // ----- the exact count -----

  predicate AllIn(deps: seq<Id>, done: seq<Id>) {
    forall d :: d in deps ==> d in done
  }

  /** The member of `deps` that finished last. */
  function LastIn(done: seq<Id>, deps: seq<Id>): Option<Id> {
    if done == [] then None
    else if done[|done| - 1] in deps then Some(done[|done| - 1])
    else LastIn(done[..|done| - 1], deps)
  }

  /**
   How often a job that can run is sent to its channel: once if all its dependencies had
   finished when it was enqueued, and otherwise as often as it lists the one that finished last.
   */
  function Copies(deps: seq<Id>, done: seq<Id>, born: nat): nat
    requires born <= |done|
  {
    if AllIn(deps, done[..born]) then 1
    else match LastIn(done, deps) case None => 0 case Some(d) => Count(deps, d)
  }

  ghost predicate Counted<R>(s: System<R>, x: Id) {
    if x in s.m.jobs then
      var job := s.m.jobs[x];
      && x in s.born && s.born[x] <= |s.done|
      && Count(s.received, x) + Count(Channel(s.m.pending, job.jobType), x) ==
           (if DepsFinished(s.m.jobs, job.deps) then Copies(job.deps, s.done, s.born[x]) else 0)
      && (!job.canceled ==> Count(s.handed, x) == Count(s.received, x))
    else
      Count(s.received, x) == 0 && Count(s.handed, x) == 0
  }

  ghost predicate SystemOk<R>(s: System<R>) {
    && MemoryOk(s.m) && NoDup(s.done)
    && (forall id :: id in s.done <==> Done(s.m.jobs, id))
    && (forall x :: Counted(s, x) && Count(s.handed, x) <= Count(s.received, x))
  }

  lemma AddKeepsInv<R>(s: System<R>, id: Id, jobType: string, deps: seq<Id>)
    requires SystemOk(s)
    ensures SystemOk(Apply(s, Add(id, jobType, deps)))
  {
    var s' := Apply(s, Add(id, jobType, deps));
    EnqueueInKeeps(s.m, id, jobType, deps);
    if s' != s {
      forall d ensures d in s'.done <==> Done(s'.m.jobs, d) {
      }
      forall x ensures Counted(s', x) {
        assert Counted(s, x) && Placed(s.m.jobs, s.m.pending, s.m.dependants, s.m.jobs.Keys, x);
        EnqueueSends(s.m, id, jobType, deps, x);
        AddCounted(s, s', id, NewJob(jobType, deps), x);
      }
    }
  }

  lemma EnqueueDeps<R>(jobs: Jobs<R>, id: Id, job: Job<R>, deps: seq<Id>)
    requires id !in jobs && !job.finished && forall d :: d in deps ==> d in jobs
    ensures DepsFinished(jobs[id := job], deps) == DepsFinished(jobs, deps)
  {
    assert forall d :: d in deps ==> Done(jobs[id := job], d) == Done(jobs, d);
  }

  /** Enqueueing sends the new job to the channel of its type exactly when it can run. */
  lemma EnqueueSendsNew<R>(m: Memory<R>, id: Id, jobType: string, deps: seq<Id>)
    requires MemoryOk(m) && id !in m.jobs
    ensures var jobs' := m.jobs[id := NewJob(jobType, deps)];
            Count(Channel(Registered(jobs', m.pending, m.dependants, id).0, jobType), id) == if DepsFinished(jobs', deps) then 1 else 0
  {
    assert Placed(m.jobs, m.pending, m.dependants, m.jobs.Keys, id);
    StrangerNotQueued(m.jobs, m.pending, m.dependants, m.jobs.Keys, id);
    RegisteredChannel(m.jobs[id := NewJob(jobType, deps)], m.pending, m.dependants, id, jobType, id);
  }

  /** What enqueueing sends of job `x` to the channel of its type. */
  lemma EnqueueSends<R>(m: Memory<R>, id: Id, jobType: string, deps: seq<Id>, x: Id)
    requires MemoryOk(m) && id !in m.jobs && forall d :: d in deps ==> d in m.jobs
    ensures var m' := EnqueueIn(m, id, jobType, deps);
            x in m'.jobs ==>
              && Count(Channel(m'.pending, m'.jobs[x].jobType), x) ==
                   (if x == id then if DepsFinished(m'.jobs, deps) then 1 else 0 else Count(Channel(m.pending, m'.jobs[x].jobType), x))
              && (x in m.jobs ==> DepsFinished(m'.jobs, m.jobs[x].deps) == DepsFinished(m.jobs, m.jobs[x].deps))
  {
    if x == id {
      EnqueueSendsNew(m, id, jobType, deps);
    } else if x in m.jobs {
      RegisteredChannel(m.jobs[id := NewJob(jobType, deps)], m.pending, m.dependants, id, m.jobs[x].jobType, x);
      assert JobOk(m.jobs, x);
      EnqueueDeps(m.jobs, id, NewJob(jobType, deps), m.jobs[x].deps);
    }
  }

  lemma AddCounted<R>(s: System<R>, s': System<R>, id: Id, job: Job<R>, x: Id)
    requires Counted(s, x) && id !in s.m.jobs && s'.m.jobs == s.m.jobs[id := job] && !job.canceled
    requires s' == s.(m := s'.m, born := s.born[id := |s.done|])
    requires forall d :: d in s'.done <==> Done(s'.m.jobs, d)
    requires x in s'.m.jobs ==>
               && Count(Channel(s'.m.pending, s'.m.jobs[x].jobType), x) ==
                    (if x == id then if DepsFinished(s'.m.jobs, job.deps) then 1 else 0 else Count(Channel(s.m.pending, s'.m.jobs[x].jobType), x))
               && (x in s.m.jobs ==> DepsFinished(s'.m.jobs, s.m.jobs[x].deps) == DepsFinished(s.m.jobs, s.m.jobs[x].deps))
    ensures Counted(s', x)
  {
    assert s.done[..|s.done|] == s.done;
  }

  lemma ReceiveKeepsInv<R>(s: System<R>, t: string)
    requires SystemOk(s)
    ensures SystemOk(Apply(s, Receive(t)))
  {
    if Channel(s.m.pending, t) != [] {
      var s' := Apply(s, Receive(t));
      HeadKnown(s.m, t);
      ReceiveInKeeps(s.m, t);
      forall d ensures d in s'.done <==> Done(s'.m.jobs, d) {
        assert Done(s'.m.jobs, d) == Done(s.m.jobs, d);
      }
      forall x ensures Counted(s', x) && Count(s'.handed, x) <= Count(s'.received, x) {
        assert Counted(s, x);
        ReceiveCounted(s, t, x);
      }
    }
  }

  lemma ReceiveCounted<R>(s: System<R>, t: string, x: Id)
    requires Counted(s, x) && Count(s.handed, x) <= Count(s.received, x)
    requires Channel(s.m.pending, t) != [] && s.m.pending[t][0] in s.m.jobs && s.m.jobs[s.m.pending[t][0]].jobType == t
    ensures var s' := Apply(s, Receive(t)); Counted(s', x) && Count(s'.handed, x) <= Count(s'.received, x)
  {
    var s' := Apply(s, Receive(t));
    ReceiveJob(s, t, x);
    CountAppend(s.received, s.m.pending[t][0], x);
    CountAppend(s.handed, s.m.pending[t][0], x);
    if x in s.m.jobs {
      PopCount(s.m.pending, t, s.m.jobs[x].jobType, x);
    }
  }

  /** Receiving a job changes nothing that the count depends on. */
  lemma ReceiveJob<R>(s: System<R>, t: string, x: Id)
    requires Channel(s.m.pending, t) != [] && s.m.pending[t][0] in s.m.jobs
    ensures var jobs, jobs' := s.m.jobs, Apply(s, Receive(t)).m.jobs;
            && (x in jobs' <==> x in jobs)
            && (x in jobs ==> jobs'[x] == jobs[x].(started := jobs'[x].started) && DepsFinished(jobs', jobs[x].deps) == DepsFinished(jobs, jobs[x].deps))
  {
    var jobs, jobs' := s.m.jobs, Apply(s, Receive(t)).m.jobs;
    assert forall d :: Done(jobs', d) == Done(jobs, d);
  }

  lemma LastInAppend(done: seq<Id>, d: Id, deps: seq<Id>)
    ensures LastIn(done + [d], deps) == if d in deps then Some(d) else LastIn(done, deps)
  {
    assert (done + [d])[..|done|] == done;
  }

  lemma EndKeepsInv<R>(s: System<R>, id: Id, result: R)
    requires SystemOk(s)
    ensures SystemOk(Apply(s, End(id, result)))
  {
    if Finish(s.m.jobs, id, result).Changed? {
      var s' := Apply(s, End(id, result));
      FinishInKeeps(s.m, id, result);
      AppendNoDup(s.done, id);
      forall d ensures d in s'.done <==> Done(s'.m.jobs, d) {
        assert d in s.done <==> Done(s.m.jobs, d);
      }
      forall x ensures Counted(s', x) {
        assert Counted(s, x);
        EndCounted(s, id, result, x);
      }
    }
  }

  lemma EndCounted<R>(s: System<R>, id: Id, result: R, x: Id)
    requires MemoryOk(s.m) && Counted(s, x) && (forall d :: d in s.done <==> Done(s.m.jobs, d))
    requires Finish(s.m.jobs, id, result).Changed?
    ensures Counted(Apply(s, End(id, result)), x)
  {
    if x in s.m.jobs {
      var deps := s.m.jobs[x].deps;
      FinishSendsExactly(s.m.jobs, s.m.pending, s.m.dependants, id, result, x);
      CopiesAfter(s.m.jobs, deps, s.done, s.born[x], id, result);
    }
  }

  /** The count is fixed by the dependency that makes the job runnable, and nothing changes it later. */
  lemma CopiesAfter<R>(jobs: Jobs<R>, deps: seq<Id>, done: seq<Id>, born: nat, id: Id, result: R)
    requires born <= |done| && (forall d :: d in done <==> Done(jobs, d)) && Finish(jobs, id, result).Changed?
    ensures var jobs' := Finish(jobs, id, result).jobs;
            && (DepsFinished(jobs, deps) ==> DepsFinished(jobs', deps) && Copies(deps, done + [id], born) == Copies(deps, done, born))
            && (!DepsFinished(jobs, deps) && DepsFinished(jobs', deps) ==> Copies(deps, done + [id], born) == Count(deps, id))
  {
    var jobs' := Finish(jobs, id, result).jobs;
    LastInAppend(done, id, deps);
    assert (done + [id])[..born] == done[..born];
    assert forall d :: d in done[..born] ==> d in done;
    assert forall d :: Done(jobs', d) <==> Done(jobs, d) || d == id;
  }

  lemma StopKeepsInv<R>(s: System<R>, id: Id)
    requires SystemOk(s)
    ensures SystemOk(Apply(s, Stop(id)))
  {
    if Cancel(s.m.jobs, id).Changed? {
      var s' := Apply(s, Stop(id));
      CancelInKeeps(s.m, id);
      forall d ensures d in s'.done <==> Done(s'.m.jobs, d) {
        assert Done(s'.m.jobs, d) == Done(s.m.jobs, d);
      }
      forall x ensures Counted(s', x) {
        assert Counted(s, x);
        if x in s.m.jobs {
          assert DepsFinished(s'.m.jobs, s.m.jobs[x].deps) == DepsFinished(s.m.jobs, s.m.jobs[x].deps);
        }
      }
    }
  }

  lemma StepKeepsInv<R>(s: System<R>, step: Step<R>)
    requires SystemOk(s)
    ensures SystemOk(Apply(s, step))
  {
    match step
    case Add(id, jobType, deps) => AddKeepsInv(s, id, jobType, deps);
    case Receive(t) => ReceiveKeepsInv(s, t);
    case End(id, result) => EndKeepsInv(s, id, result);
    case Stop(id) => StopKeepsInv(s, id);
  }

  lemma {:induction false} RunInv<R>(steps: seq<Step<R>>)
    ensures SystemOk(Exec(steps))
  {
    if steps == [] {
      EmptyInv<R>();
    } else {
      RunInv(steps[..|steps| - 1]);
      StepKeepsInv(Exec(steps[..|steps| - 1]), steps[|steps| - 1]);
    }
  }

  lemma EmptyInv<R>()
    ensures SystemOk(Exec<R>([]))
  {
    assert forall t, x :: Count(Channel(map[], t), x) == 0;
    assert forall d, x :: Count(Waiting(map[], d), x) == 0;
  }

  /**
   In every run, a job whose dependencies have finished has been sent to its channel exactly
   `Copies` times, and never before: the entries received so far plus those still there.
   */
  lemma SentExactly<R>(steps: seq<Step<R>>, x: Id)
    requires x in Exec(steps).m.jobs
    ensures var s := Exec(steps);
            var job := s.m.jobs[x];
            && x in s.born && s.born[x] <= |s.done|
            && Count(s.received, x) + Count(Channel(s.m.pending, job.jobType), x) ==
                 if DepsFinished(s.m.jobs, job.deps) then Copies(job.deps, s.done, s.born[x]) else 0
  {
    RunInv(steps);
    assert Counted(Exec(steps), x);
  }

  // ----- handed out at most once -----

  lemma ExecAppend<R>(steps: seq<Step<R>>, step: Step<R>)
    ensures Exec(steps + [step]) == Apply(Exec(steps), step)
  {
    assert (steps + [step])[..|steps|] == steps;
  }

  /** The count of a runnable job, in a state of a run. */
  ghost function CopiesOf<R>(s: System<R>, x: Id): nat {
    if x in s.m.jobs && x in s.born && s.born[x] <= |s.done| then Copies(s.m.jobs[x].deps, s.done, s.born[x]) else 0
  }

  ghost predicate Runnable<R>(s: System<R>, x: Id) {
    x in s.m.jobs && DepsFinished(s.m.jobs, s.m.jobs[x].deps)
  }

  lemma StepKeepsCopies<R>(s: System<R>, step: Step<R>, x: Id)
    requires SystemOk(s) && Runnable(s, x)
    ensures Runnable(Apply(s, step), x) && CopiesOf(Apply(s, step), x) == CopiesOf(s, x)
  {
    assert Counted(s, x);
    if step.End? && Finish(s.m.jobs, step.id, step.result).Changed? {
      CopiesAfter(s.m.jobs, s.m.jobs[x].deps, s.done, s.born[x], step.id, step.result);
    } else {
      OtherStep(s, step, x);
    }
  }

  /** A step that ends no job changes nothing that the count depends on. */
  lemma OtherStep<R>(s: System<R>, step: Step<R>, x: Id)
    requires x in s.m.jobs && x in s.born && DepsFinished(s.m.jobs, s.m.jobs[x].deps)
    requires step.End? ==> !Finish(s.m.jobs, step.id, step.result).Changed?
    ensures var s' := Apply(s, step);
            && x in s'.m.jobs && s'.m.jobs[x].deps == s.m.jobs[x].deps && DepsFinished(s'.m.jobs, s.m.jobs[x].deps)
            && s'.done == s.done && x in s'.born && s'.born[x] == s.born[x]
  {
    var s' := Apply(s, step);
    assert forall d :: Done(s.m.jobs, d) ==> Done(s'.m.jobs, d);
  }

  lemma {:induction false} CopiesStay<R>(steps: seq<Step<R>>, more: seq<Step<R>>, x: Id)
    requires Runnable(Exec(steps), x)
    ensures Runnable(Exec(steps + more), x) && CopiesOf(Exec(steps + more), x) == CopiesOf(Exec(steps), x)
  {
    if more == [] {
      assert steps + more == steps;
    } else {
      var init, last := more[..|more| - 1], more[|more| - 1];
      CopiesStay(steps, init, x);
      assert steps + more == (steps + init) + [last];
      ExecAppend(steps + init, last);
      RunInv(steps + init);
      StepKeepsCopies(Exec(steps + init), last, x);
    }
  }

  function Receives<R>(t: string, n: nat): (steps: seq<Step<R>>)
    ensures |steps| == n && forall k :: 0 <= k < n ==> steps[k] == Receive(t)
  {
    seq(n, _ => Receive(t))
  }

  /** `s'` follows `s` by `n` receipts from channel `t`; job `x` is still what it was. */
  ghost predicate Shrunk<R>(s: System<R>, s': System<R>, x: Id, t: string, n: nat) {
    && x in s.m.jobs && x in s'.m.jobs
    && s'.m.jobs[x].canceled == s.m.jobs[x].canceled && s'.m.jobs[x].jobType == s.m.jobs[x].jobType
    && |Channel(s'.m.pending, t)| == |Channel(s.m.pending, t)| - n
  }

  /** Workers that keep asking empty a channel, and cancel nothing. */
  lemma {:induction false} Drained<R>(steps: seq<Step<R>>, x: Id, t: string, n: nat)
    requires x in Exec(steps).m.jobs && n <= |Channel(Exec(steps).m.pending, t)|
    ensures Shrunk(Exec(steps), Exec(steps + Receives(t, n)), x, t, n)
  {
    if n == 0 {
      assert steps + Receives(t, n) == steps;
    } else {
      Drained(steps, x, t, n - 1);
      NextReceive(steps, t, n);
      ReceiveShrinks(Exec(steps), Exec(steps + Receives(t, n - 1)), t, x, n - 1);
    }
  }

  lemma NextReceive<R>(steps: seq<Step<R>>, t: string, n: nat)
    requires n > 0
    ensures Exec(steps + Receives(t, n)) == Apply(Exec(steps + Receives(t, n - 1)), Receive(t))
  {
    var before := steps + Receives(t, n - 1);
    assert steps + Receives(t, n) == before + [Receive(t)];
    ExecAppend(before, Receive(t));
  }

  lemma ReceiveShrinks<R>(s: System<R>, s': System<R>, t: string, x: Id, n: nat)
    requires Shrunk(s, s', x, t, n) && Channel(s'.m.pending, t) != []
    ensures Shrunk(s, Apply(s', Receive(t)), x, t, n + 1)
  {
  }

  lemma SomeCopy(deps: seq<Id>, done: seq<Id>, born: nat)
    requires born <= |done| && AllIn(deps, done)
    ensures Copies(deps, done, born) > 0
  {
    if !AllIn(deps, done[..born]) {
      LastInFound(done, deps);
    }
  }

  lemma {:induction false} LastInFound(done: seq<Id>, deps: seq<Id>)
    requires exists d :: d in deps && d in done
    ensures LastIn(done, deps).Some? && Count(deps, LastIn(done, deps).value) > 0
  {
    var d :| d in deps && d in done;
    var last := done[|done| - 1];
    CountMember(deps, last);
    if last !in deps {
      assert d in done[..|done| - 1];
      LastInFound(done[..|done| - 1], deps);
    }
  }

  /**
   A runnable job that is not canceled is handed out at most once in every continuation if
   and only if its dependencies had all finished when it was enqueued, or it lists the one that
   finished last only once.
   */
  lemma HandedOnceExactly<R>(steps: seq<Step<R>>, x: Id)
    requires Runnable(Exec(steps), x) && !Exec(steps).m.jobs[x].canceled
    ensures (forall more :: Count(Exec(steps + more).handed, x) <= 1) <==> CopiesOf(Exec(steps), x) == 1
  {
    forall more ensures Count(Exec(steps + more).handed, x) <= CopiesOf(Exec(steps), x) {
      CopiesStay(steps, more, x);
      RunInv(steps + more);
      assert Counted(Exec(steps + more), x);
    }
    var t := Exec(steps).m.jobs[x].jobType;
    var n := |Channel(Exec(steps).m.pending, t)|;
    var more := Receives(t, n);
    Drained(steps, x, t, n);
    CopiesStay(steps, more, x);
    DrainedCount(steps + more, x);
  }

  lemma DrainedCount<R>(steps: seq<Step<R>>, x: Id)
    requires Runnable(Exec(steps), x) && !Exec(steps).m.jobs[x].canceled
    requires Channel(Exec(steps).m.pending, Exec(steps).m.jobs[x].jobType) == []
    ensures Count(Exec(steps).handed, x) == CopiesOf(Exec(steps), x) > 0
  {
    var s := Exec(steps);
    RunInv(steps);
    assert Counted(s, x);
    SomeCopy(s.m.jobs[x].deps, s.done, s.born[x]);
  }

  lemma StepKeepsCanceled<R>(s: System<R>, step: Step<R>, x: Id)
    requires x in s.m.jobs && s.m.jobs[x].canceled
    ensures x in Apply(s, step).m.jobs && Apply(s, step).m.jobs[x].canceled && Count(Apply(s, step).handed, x) == Count(s.handed, x)
  {
    if step.Receive? && Channel(s.m.pending, step.jobType) != [] {
      CountAppend(s.handed, s.m.pending[step.jobType][0], x);
    }
  }

  /** A canceled job is not handed out any more, even though it may still be in its channel. */
  lemma {:induction false} CanceledNotHanded<R>(steps: seq<Step<R>>, more: seq<Step<R>>, x: Id)
    requires x in Exec(steps).m.jobs && Exec(steps).m.jobs[x].canceled
    ensures x in Exec(steps + more).m.jobs && Exec(steps + more).m.jobs[x].canceled
    ensures Count(Exec(steps + more).handed, x) == Count(Exec(steps).handed, x)
  {
    if more == [] {
      assert steps + more == steps;
    } else {
      var init, last := more[..|more| - 1], more[|more| - 1];
      CanceledNotHanded(steps, init, x);
      assert steps + more == steps + init + [last];
      ExecAppend(steps + init, last);
      StepKeepsCanceled(Exec(steps + init), last, x);
    }
  }

  /** It is enough that no dependency unfinished at that time is listed twice. */
  lemma ListedOnceIsEnough(deps: seq<Id>, done: seq<Id>, born: nat)
    requires born <= |done| && NoDup(done) && AllIn(deps, done)
    requires forall d :: d in deps && d !in done[..born] ==> Count(deps, d) == 1
    ensures Copies(deps, done, born) == 1
  {
    if !AllIn(deps, done[..born]) {
      var d :| d in deps && d !in done[..born];
      LastAfter(done, deps, born, d);
    }
  }

  lemma {:induction false} LastAfter(done: seq<Id>, deps: seq<Id>, born: nat, d: Id)
    requires born <= |done| && NoDup(done) && d in deps && d in done && d !in done[..born]
    ensures LastIn(done, deps).Some? && LastIn(done, deps).value in deps && LastIn(done, deps).value !in done[..born]
  {
    var n := |done| - 1;
    var last := done[n];
    assert d in done[born..] by {
      assert done == done[..born] + done[born..];
    }
    if last !in deps {
      assert d in done[..n];
      assert done[..n][..born] == done[..born];
      LastAfter(done[..n], deps, born, d);
    } else {
      assert forall i :: 0 <= i < born ==> done[..born][i] == done[i] && done[i] != last;
    }
  }

  /** A dependency listed twice and finished last: two workers are handed the same job. */
  lemma RepeatedDependencyStartsTwice(j: Id, a: Id, t: string)
    requires j != a
    ensures Exec<int>([Add(a, t, []), Receive(t), Add(j, t, [a, a]), End(a, 0), Receive(t), Receive(t)]).handed == [a, j, j]
  {
    var steps: seq<Step<int>> := [Add(a, t, []), Receive(t), Add(j, t, [a, a]), End(a, 0), Receive(t), Receive(t)];
    assert steps[..0] == [] && steps[..6] == steps;
    ExecPrefix(steps, 0);
    ExecPrefix(steps, 1);
    FirstTaken(a, t);
    ExecPrefix(steps, 2);
    ExecPrefix(steps, 3);
    TwiceInChannel(Exec(steps[..2]), j, a, t);
    ExecPrefix(steps, 4);
    ExecPrefix(steps, 5);
    TakenTwice(Exec(steps[..4]), j, t);
  }

  lemma ExecPrefix<R>(steps: seq<Step<R>>, n: nat)
    requires n < |steps|
    ensures Exec(steps[..n + 1]) == Apply(Exec(steps[..n]), steps[n])
  {
    assert steps[..n + 1] == steps[..n] + [steps[n]];
    ExecAppend(steps[..n], steps[n]);
  }

  lemma FirstTaken(a: Id, t: string)
    ensures var s := Apply(Apply(Exec<int>([]), Add(a, t, [])), Receive(t));
            s.m == Memory(map[a := Job(t, [], true, false, false, None)], map[t := []], map[]) && s.handed == [a]
  {
    var s := Apply(Exec<int>([]), Add(a, t, []));
    assert DepsFinished(s.m.jobs, []) && Channel(map[], t) + [a] == [a];
    assert s.m == Memory(map[a := NewJob(t, [])], map[t := [a]], map[]);
  }

  lemma TakenTwice(s: System<int>, j: Id, t: string)
    requires Channel(s.m.pending, t) == [j, j] && j in s.m.jobs && !s.m.jobs[j].canceled
    ensures Apply(Apply(s, Receive(t)), Receive(t)).handed == s.handed + [j, j]
  {
    assert Channel(Apply(s, Receive(t)).m.pending, t) == [j];
  }

  lemma TwiceInChannel(s: System<int>, j: Id, a: Id, t: string)
    requires j != a && s.m == Memory(map[a := Job(t, [], true, false, false, None)], map[t := []], map[])
    ensures var s' := Apply(Apply(s, Add(j, t, [a, a])), End(a, 0));
            && Channel(s'.m.pending, t) == [j, j] && s'.handed == s.handed
            && j in s'.m.jobs && !s'.m.jobs[j].canceled
  {
    var added := Apply(s, Add(j, t, [a, a]));
    assert !DepsFinished(added.m.jobs, [a, a]) by {
      assert a in [a, a] && !Done(added.m.jobs, a);
    }
    SubscribeTwice(j, a);
    var jobs' := Finish(added.m.jobs, a, 0).jobs;
    assert Waiting(added.m.dependants, a) == [j, j];
    NotifyTwice(jobs', map[t := []], j);
  }

  lemma SubscribeTwice(j: Id, a: Id)
    ensures Waiting(Subscribe(map[], j, [a, a]), a) == [j, j]
  {
    var e: Dependants := map[];
    assert [a, a][..1] == [a] && [a][..0] == [];
    assert Subscribe(e, j, []) == e && Waiting(e, a) + [j] == [j];
    assert Subscribe(e, j, [a]) == e[a := [j]];
  }

  lemma NotifyTwice<R>(jobs: Jobs<R>, pending: Pending, j: Id)
    requires Pushable(jobs, j) && Channel(pending, jobs[j].jobType) == []
    ensures Channel(Notify(jobs, pending, [j, j]), jobs[j].jobType) == [j, j]
  {
    assert [j, j][..1] == [j] && [j][..0] == [];
    assert Notify(jobs, pending, [j]) == Push(jobs, Notify(jobs, pending, []), j);
  }
}
