/** When a waiting job can be handed out twice, judged by the stored jobs alone. */
module JobQueuePlans {
  import opened Wrappers
  import opened Strings
  import opened JobQueue
  import opened FsJobQueue
  import opened JobQueueRuns

  /** An order in which stored jobs can still finish: each after all its dependencies. */
  ghost predicate Plan<R>(jobs: Jobs<R>, plan: seq<Id>) {
    NoDup(plan) && forall k :: 0 <= k < |plan| ==> CanFinish(jobs, plan[..k], plan[k])
  }

  predicate CanFinish<R>(jobs: Jobs<R>, before: seq<Id>, id: Id) {
    id in jobs && !jobs[id].finished && !jobs[id].canceled && forall d :: d in jobs[id].deps ==> Done(jobs, d) || d in before
  }

  /** A plan that finishes all dependencies of `x`, ending with one that `x` lists more than once. */
  ghost predicate RepeatedLast<R>(jobs: Jobs<R>, x: Id, plan: seq<Id>)
    requires x in jobs
  {
    && plan != [] && Plan(jobs, plan)
    && (forall d :: d in jobs[x].deps ==> Done(jobs, d) || d in plan)
    && Count(jobs[x].deps, plan[|plan| - 1]) >= 2
  }

  // ----- following a plan -----

  /** Jobs are still there, with the same dependencies and as canceled as before. */
  ghost predicate Kept<R>(s: System<R>, s': System<R>) {
    && (forall x :: x in s.m.jobs ==> x in s'.m.jobs && s'.m.jobs[x].deps == s.m.jobs[x].deps && s'.m.jobs[x].canceled == s.m.jobs[x].canceled)
    && (forall x :: x in s.born ==> x in s'.born && s'.born[x] == s.born[x])
  }

  lemma {:induction false} GetsStarted<R>(steps: seq<Step<R>>, id: Id, n: nat) returns (more: seq<Step<R>>)
    requires Ready(Exec(steps).m.jobs, id) && n == |Channel(Exec(steps).m.pending, Exec(steps).m.jobs[id].jobType)|
    ensures var s, s' := Exec(steps), Exec(steps + more);
            Kept(s, s') && s'.done == s.done && s'.m.jobs[id].started && !s'.m.jobs[id].canceled
    decreases n
  {
    var s := Exec(steps);
    var t := s.m.jobs[id].jobType;
    RunInv(steps);
    ReadyInChannel(s, id);
    ExecAppend(steps, Receive(t));
    ReceiveFor(s, t, id);
    if s.m.pending[t][0] == id {
      more := [Receive(t)];
    } else {
      var rest := GetsStarted(steps + [Receive(t)], id, n - 1);
      more := [Receive(t)] + rest;
      SameRun(steps, [Receive(t)], rest);
    }
  }

  lemma ReadyInChannel<R>(s: System<R>, id: Id)
    requires SystemOk(s) && Ready(s.m.jobs, id)
    ensures Channel(s.m.pending, s.m.jobs[id].jobType) != []
  {
    assert Placed(s.m.jobs, s.m.pending, s.m.dependants, s.m.jobs.Keys, id);
  }

  /** One receipt: the head is started, and a ready job that is not the head stays ready. */
  lemma ReceiveFor<R>(s: System<R>, t: string, id: Id)
    requires Channel(s.m.pending, t) != [] && Ready(s.m.jobs, id)
    ensures var s' := Apply(s, Receive(t));
            && Kept(s, s') && s'.done == s.done && s'.m.jobs[id].jobType == s.m.jobs[id].jobType
            && |Channel(s'.m.pending, t)| == |Channel(s.m.pending, t)| - 1
            && (if s.m.pending[t][0] == id then s'.m.jobs[id].started else Ready(s'.m.jobs, id))
  {
    var s' := Apply(s, Receive(t));
    assert forall d :: Done(s'.m.jobs, d) == Done(s.m.jobs, d);
  }

  /** A job whose dependencies have finished can be made to finish next. */
  lemma FinishNext<R>(steps: seq<Step<R>>, id: Id, result: R) returns (more: seq<Step<R>>)
    requires var jobs := Exec(steps).m.jobs;
             id in jobs && !jobs[id].finished && !jobs[id].canceled && DepsFinished(jobs, jobs[id].deps)
    ensures var s, s' := Exec(steps), Exec(steps + more); Kept(s, s') && s'.done == s.done + [id]
  {
    var s := Exec(steps);
    more := [];
    assert steps + [] == steps;
    if !s.m.jobs[id].started {
      more := GetsStarted(steps, id, |Channel(s.m.pending, s.m.jobs[id].jobType)|);
    }
    var taken := Exec(steps + more);
    NotYetFinished(steps, more, id);
    ExecAppend(steps + more, End(id, result));
    assert steps + (more + [End(id, result)]) == steps + more + [End(id, result)];
    more := more + [End(id, result)];
  }

  lemma NotYetFinished<R>(steps: seq<Step<R>>, more: seq<Step<R>>, id: Id)
    requires id in Exec(steps).m.jobs && !Exec(steps).m.jobs[id].finished
    requires id in Exec(steps + more).m.jobs && Exec(steps + more).done == Exec(steps).done
    ensures !Exec(steps + more).m.jobs[id].finished
  {
    RunInv(steps);
    RunInv(steps + more);
    assert id in Exec(steps).done <==> Done(Exec(steps).m.jobs, id);
    assert id in Exec(steps + more).done <==> Done(Exec(steps + more).m.jobs, id);
  }

  /** A plan can be carried out, job by job. */
  lemma {:induction false} FollowPlan<R>(steps: seq<Step<R>>, plan: seq<Id>, result: R) returns (more: seq<Step<R>>)
    requires Plan(Exec(steps).m.jobs, plan)
    ensures var s, s' := Exec(steps), Exec(steps + more); Kept(s, s') && s'.done == s.done + plan
  {
    if plan == [] {
      more := [];
      AddNothing(steps);
    } else {
      PlanFront(Exec(steps).m.jobs, plan);
      var first := FollowPlan(steps, plan[..|plan| - 1], result);
      more := ExtendPlan(steps, first, plan, result);
    }
  }

  lemma AddNothing<R>(steps: seq<Step<R>>)
    ensures Exec(steps + []) == Exec(steps) && Kept(Exec(steps), Exec(steps + [])) && Exec(steps + []).done == Exec(steps).done + []
  {
    assert steps + [] == steps;
  }

  /** One more job of a plan. */
  lemma ExtendPlan<R>(steps: seq<Step<R>>, first: seq<Step<R>>, plan: seq<Id>, result: R) returns (more: seq<Step<R>>)
    requires plan != [] && Plan(Exec(steps).m.jobs, plan)
    requires Kept(Exec(steps), Exec(steps + first)) && Exec(steps + first).done == Exec(steps).done + plan[..|plan| - 1]
    ensures var s, s' := Exec(steps), Exec(steps + more); Kept(s, s') && s'.done == s.done + plan
  {
    NextInPlan(steps, first, plan);
    var last := FinishNext(steps + first, plan[|plan| - 1], result);
    more := first + last;
    SameRun(steps, first, last);
    PlanDone(Exec(steps), Exec(steps + first), Exec(steps + more), plan);
  }

  lemma SameRun<R>(steps: seq<Step<R>>, first: seq<Step<R>>, last: seq<Step<R>>)
    ensures Exec(steps + (first + last)) == Exec(steps + first + last)
  {
    assert steps + (first + last) == steps + first + last;
  }

  lemma PlanDone<R>(s: System<R>, mid: System<R>, s': System<R>, plan: seq<Id>)
    requires plan != [] && Kept(s, mid) && Kept(mid, s')
    requires mid.done == s.done + plan[..|plan| - 1] && s'.done == mid.done + [plan[|plan| - 1]]
    ensures Kept(s, s') && s'.done == s.done + plan
  {
  }

  lemma PlanFront<R>(jobs: Jobs<R>, plan: seq<Id>)
    requires plan != [] && Plan(jobs, plan)
    ensures Plan(jobs, plan[..|plan| - 1]) && CanFinish(jobs, plan[..|plan| - 1], plan[|plan| - 1]) && plan[|plan| - 1] !in plan[..|plan| - 1]
  {
    var front := plan[..|plan| - 1];
    forall k | 0 <= k < |front| ensures CanFinish(jobs, front[..k], front[k]) {
      assert front[..k] == plan[..k];
    }
  }

  /** Once the jobs before it in the plan have finished, the last one can. */
  lemma NextInPlan<R>(steps: seq<Step<R>>, first: seq<Step<R>>, plan: seq<Id>)
    requires plan != [] && Plan(Exec(steps).m.jobs, plan)
    requires Kept(Exec(steps), Exec(steps + first)) && Exec(steps + first).done == Exec(steps).done + plan[..|plan| - 1]
    ensures var jobs, id := Exec(steps + first).m.jobs, plan[|plan| - 1];
            id in jobs && !jobs[id].finished && !jobs[id].canceled && DepsFinished(jobs, jobs[id].deps)
  {
    var s, s', id := Exec(steps), Exec(steps + first), plan[|plan| - 1];
    PlanFront(s.m.jobs, plan);
    RunInv(steps);
    RunInv(steps + first);
    assert id in s'.done <==> Done(s'.m.jobs, id);
    assert id in s.done <==> Done(s.m.jobs, id);
    forall d | d in s'.m.jobs[id].deps ensures Done(s'.m.jobs, d) {
      assert d in s.done <==> Done(s.m.jobs, d);
      assert d in s'.done <==> Done(s'.m.jobs, d);
    }
  }

  // ----- what a run tells about plans -----

  lemma StepOrder<R>(s: System<R>, step: Step<R>)
    requires SystemOk(s)
    ensures s.done <= Apply(s, step).done
    ensures forall x :: x in s.m.jobs ==> x in Apply(s, step).m.jobs && Apply(s, step).m.jobs[x].deps == s.m.jobs[x].deps
    ensures forall x :: x in s.m.jobs && s.m.jobs[x].canceled && !s.m.jobs[x].finished ==>
              Apply(s, step).m.jobs[x].canceled && !Apply(s, step).m.jobs[x].finished
  {
  }

  /** `s'` follows `s`: more jobs have finished, none of them was canceled before. */
  ghost predicate Follows<R>(s: System<R>, s': System<R>) {
    && s.done <= s'.done
    && (forall x :: x in s.m.jobs ==> x in s'.m.jobs && s'.m.jobs[x].deps == s.m.jobs[x].deps)
    && (forall x :: x in s.m.jobs && s.m.jobs[x].canceled && !s.m.jobs[x].finished ==> s'.m.jobs[x].canceled && !s'.m.jobs[x].finished)
  }

  lemma {:induction false} RunFollows<R>(steps: seq<Step<R>>, more: seq<Step<R>>)
    ensures Follows(Exec(steps), Exec(steps + more))
  {
    if more == [] {
      assert steps + more == steps;
    } else {
      var init, last := more[..|more| - 1], more[|more| - 1];
      RunFollows(steps, init);
      assert steps + more == steps + init + [last];
      ExecAppend(steps + init, last);
      RunInv(steps + init);
      StepOrder(Exec(steps + init), last);
    }
  }

  /** The job that finished `k`-th did so after all its dependencies. */
  predicate InTurn<R>(s: System<R>, k: int)
    requires 0 <= k < |s.done|
  {
    s.done[k] in s.m.jobs && forall d :: d in s.m.jobs[s.done[k]].deps ==> d in s.done[..k]
  }

  lemma StepInTurn<R>(s: System<R>, step: Step<R>, k: int)
    requires SystemOk(s) && 0 <= k < |Apply(s, step).done| && (k < |s.done| ==> InTurn(s, k))
    ensures InTurn(Apply(s, step), k)
  {
    var s' := Apply(s, step);
    StepOrder(s, step);
    if k < |s.done| {
      assert s'.done[..k] == s.done[..k] && s'.done[k] == s.done[k];
    } else {
      EndInTurn(s, step);
    }
  }

  lemma EndInTurn<R>(s: System<R>, step: Step<R>)
    requires SystemOk(s) && |Apply(s, step).done| > |s.done|
    ensures InTurn(Apply(s, step), |s.done|)
  {
    var id := step.id;
    assert JobOk(s.m.jobs, id);
    assert Apply(s, step).done[..|s.done|] == s.done;
    forall d | d in s.m.jobs[id].deps ensures d in s.done {
      assert Done(s.m.jobs, d);
    }
  }

  lemma {:induction false} AllInTurn<R>(steps: seq<Step<R>>, k: int)
    requires 0 <= k < |Exec(steps).done|
    ensures InTurn(Exec(steps), k)
  {
    var before := Exec(steps[..|steps| - 1]);
    RunInv(steps[..|steps| - 1]);
    if k < |before.done| {
      AllInTurn(steps[..|steps| - 1], k);
    }
    StepInTurn(before, steps[|steps| - 1], k);
  }

  /** The members of a list that are stored jobs. */
  function Stored<R>(jobs: Jobs<R>, ids: seq<Id>): seq<Id> {
    if ids == [] then []
    else Stored(jobs, ids[..|ids| - 1]) + if ids[|ids| - 1] in jobs then [ids[|ids| - 1]] else []
  }

  lemma {:induction false} StoredMember<R>(jobs: Jobs<R>, ids: seq<Id>, id: Id)
    ensures id in Stored(jobs, ids) <==> id in ids && id in jobs
  {
    if ids != [] {
      StoredMember(jobs, ids[..|ids| - 1], id);
      assert ids == ids[..|ids| - 1] + [ids[|ids| - 1]];
    }
  }

  lemma PlanSnoc<R>(jobs: Jobs<R>, plan: seq<Id>, id: Id)
    requires Plan(jobs, plan) && id !in plan && CanFinish(jobs, plan, id)
    ensures Plan(jobs, plan + [id])
  {
    AppendNoDup(plan, id);
    forall k | 0 <= k < |plan| + 1 ensures CanFinish(jobs, (plan + [id])[..k], (plan + [id])[k]) {
      if k < |plan| {
        assert (plan + [id])[..k] == plan[..k];
        assert CanFinish(jobs, plan[..k], plan[k]);
      } else {
        assert (plan + [id])[..k] == plan;
      }
    }
  }

  /** The jobs of `s` that finished afterwards, up to the `n`-th, are a plan for `s`. */
  lemma {:induction false} FinishedIsPlan<R>(s: System<R>, s': System<R>, n: nat)
    requires SystemOk(s) && SystemOk(s') && Follows(s, s') && |s.done| <= n <= |s'.done|
    requires forall k :: 0 <= k < |s'.done| ==> InTurn(s', k)
    ensures Plan(s.m.jobs, Stored(s.m.jobs, s'.done[|s.done|..n]))
  {
    if n > |s.done| {
      FinishedIsPlan(s, s', n - 1);
      FinishedExtends(s, s', n - 1);
    }
  }

  lemma FinishedExtends<R>(s: System<R>, s': System<R>, k: nat)
    requires SystemOk(s) && SystemOk(s') && Follows(s, s') && |s.done| <= k < |s'.done| && InTurn(s', k)
    requires Plan(s.m.jobs, Stored(s.m.jobs, s'.done[|s.done|..k]))
    ensures Plan(s.m.jobs, Stored(s.m.jobs, s'.done[|s.done|..k + 1]))
  {
    var front, id := s'.done[|s.done|..k], s'.done[k];
    assert s'.done[|s.done|..k + 1] == front + [id];
    StoredSnoc(s.m.jobs, front, id);
    if id in s.m.jobs {
      FinishedFits(s, s', k);
      PlanSnoc(s.m.jobs, Stored(s.m.jobs, front), id);
    }
  }

  lemma StoredSnoc<R>(jobs: Jobs<R>, ids: seq<Id>, id: Id)
    ensures Stored(jobs, ids + [id]) == if id in jobs then Stored(jobs, ids) + [id] else Stored(jobs, ids)
  {
    assert (ids + [id])[..|ids|] == ids;
  }

  lemma FinishedFits<R>(s: System<R>, s': System<R>, k: nat)
    requires SystemOk(s) && SystemOk(s') && Follows(s, s') && |s.done| <= k < |s'.done| && s'.done[k] in s.m.jobs && InTurn(s', k)
    ensures var before := Stored(s.m.jobs, s'.done[|s.done|..k]);
            s'.done[k] !in before && CanFinish(s.m.jobs, before, s'.done[k])
  {
    var id, rest := s'.done[k], s'.done[|s.done|..k];
    StoredMember(s.m.jobs, rest, id);
    assert id in s.done <==> Done(s.m.jobs, id);
    assert id in s'.done <==> Done(s'.m.jobs, id);
    assert s'.done[..k] == s.done + rest;
    assert JobOk(s.m.jobs, id);
    forall d | d in s.m.jobs[id].deps ensures Done(s.m.jobs, d) || d in Stored(s.m.jobs, rest) {
      assert d in s'.done[..k];
      assert d in s.done <==> Done(s.m.jobs, d);
      StoredMember(s.m.jobs, rest, d);
    }
  }

  /** Where the dependency that finished last is. */
  lemma {:induction false} LastInAt(done: seq<Id>, deps: seq<Id>) returns (i: nat)
    requires LastIn(done, deps).Some?
    ensures i < |done| && done[i] == LastIn(done, deps).value && done[i] in deps
    ensures forall j :: i < j < |done| ==> done[j] !in deps
  {
    if done[|done| - 1] in deps {
      i := |done| - 1;
    } else {
      i := LastInAt(done[..|done| - 1], deps);
    }
  }

  // ----- the exact condition -----

  lemma PlanHandsTwice<R>(steps: seq<Step<R>>, x: Id, plan: seq<Id>, result: R) returns (more: seq<Step<R>>)
    requires var jobs := Exec(steps).m.jobs; x in jobs && !jobs[x].canceled && !DepsFinished(jobs, jobs[x].deps) && RepeatedLast(jobs, x, plan)
    ensures Count(Exec(steps + more).handed, x) >= 2
  {
    var first := FollowPlan(steps, plan, result);
    var s, s' := Exec(steps), Exec(steps + first);
    AfterPlan(steps, first, x, plan);
    var t := s'.m.jobs[x].jobType;
    var n := |Channel(s'.m.pending, t)|;
    Drained(steps + first, x, t, n);
    CopiesStay(steps + first, Receives(t, n), x);
    DrainedCount(steps + first + Receives(t, n), x);
    more := first + Receives(t, n);
    assert steps + more == steps + first + Receives(t, n);
  }

  lemma AfterPlan<R>(steps: seq<Step<R>>, first: seq<Step<R>>, x: Id, plan: seq<Id>)
    requires var jobs := Exec(steps).m.jobs; x in jobs && !jobs[x].canceled && !DepsFinished(jobs, jobs[x].deps) && RepeatedLast(jobs, x, plan)
    requires Kept(Exec(steps), Exec(steps + first)) && Exec(steps + first).done == Exec(steps).done + plan
    ensures var s' := Exec(steps + first); Runnable(s', x) && !s'.m.jobs[x].canceled && CopiesOf(s', x) >= 2
  {
    RunInv(steps);
    RunInv(steps + first);
    PlanFinishes(Exec(steps), Exec(steps + first), x, plan);
    PlanRepeats(Exec(steps), Exec(steps + first), x, plan);
  }

  lemma PlanFinishes<R>(s: System<R>, s': System<R>, x: Id, plan: seq<Id>)
    requires SystemOk(s) && SystemOk(s') && x in s.m.jobs && Kept(s, s') && s'.done == s.done + plan
    requires forall d :: d in s.m.jobs[x].deps ==> Done(s.m.jobs, d) || d in plan
    ensures Runnable(s', x)
  {
    forall d | d in s.m.jobs[x].deps ensures Done(s'.m.jobs, d) {
      assert d in s.done <==> Done(s.m.jobs, d);
      assert d in s'.done <==> Done(s'.m.jobs, d);
    }
  }

  lemma PlanRepeats<R>(s: System<R>, s': System<R>, x: Id, plan: seq<Id>)
    requires SystemOk(s) && x in s.m.jobs && !DepsFinished(s.m.jobs, s.m.jobs[x].deps) && Kept(s, s') && s'.done == s.done + plan
    requires plan != [] && Count(s.m.jobs[x].deps, plan[|plan| - 1]) >= 2
    ensures CopiesOf(s', x) >= 2
  {
    var deps, n := s.m.jobs[x].deps, |plan| - 1;
    assert Counted(s, x);
    UnfinishedAtBirth(s, x, s'.done);
    CountMember(deps, plan[n]);
    LastInAppend(s.done + plan[..n], plan[n], deps);
    assert s.done + plan[..n] + [plan[n]] == s'.done;
  }

  /** A job that still waits had an unfinished dependency when it was enqueued. */
  lemma UnfinishedAtBirth<R>(s: System<R>, x: Id, done: seq<Id>)
    requires SystemOk(s) && x in s.m.jobs && !DepsFinished(s.m.jobs, s.m.jobs[x].deps)
    requires x in s.born && s.born[x] <= |s.done| && s.done <= done
    ensures !AllIn(s.m.jobs[x].deps, done[..s.born[x]])
  {
    var d :| d in s.m.jobs[x].deps && !Done(s.m.jobs, d);
    assert d in s.done <==> Done(s.m.jobs, d);
    assert done[..s.born[x]] == s.done[..s.born[x]];
  }

  /** A run that hands out `x` twice finished its dependencies by such a plan. */
  lemma TwiceMeansPlan<R>(steps: seq<Step<R>>, x: Id, more: seq<Step<R>>) returns (plan: seq<Id>)
    requires var jobs := Exec(steps).m.jobs; x in jobs && !DepsFinished(jobs, jobs[x].deps)
    requires Count(Exec(steps + more).handed, x) >= 2
    ensures RepeatedLast(Exec(steps).m.jobs, x, plan)
  {
    var s, s' := Exec(steps), Exec(steps + more);
    RunInv(steps);
    RunInv(steps + more);
    RunFollows(steps, more);
    var i := LastRepeated(steps, more, x);
    forall k | 0 <= k < |s'.done| ensures InTurn(s', k) {
      AllInTurn(steps + more, k);
    }
    PlanFromHistory(s, s', x, i);
    plan := Stored(s.m.jobs, s'.done[|s.done|..i + 1]);
  }

  lemma PlanFromHistory<R>(s: System<R>, s': System<R>, x: Id, i: nat)
    requires SystemOk(s) && SystemOk(s') && Follows(s, s') && x in s.m.jobs && !DepsFinished(s.m.jobs, s.m.jobs[x].deps)
    requires DepsFinished(s'.m.jobs, s.m.jobs[x].deps) && i < |s'.done| && Count(s.m.jobs[x].deps, s'.done[i]) >= 2
    requires forall j :: i < j < |s'.done| ==> s'.done[j] !in s.m.jobs[x].deps
    requires forall k :: 0 <= k < |s'.done| ==> InTurn(s', k)
    ensures |s.done| <= i && RepeatedLast(s.m.jobs, x, Stored(s.m.jobs, s'.done[|s.done|..i + 1]))
  {
    PlanCovers(s, s', x, i);
    FinishedIsPlan(s, s', i + 1);
  }

  /** The place in the order of finishing where the last dependency of `x` is, which `x` repeats. */
  lemma LastRepeated<R>(steps: seq<Step<R>>, more: seq<Step<R>>, x: Id) returns (i: nat)
    requires var jobs := Exec(steps).m.jobs; x in jobs && !DepsFinished(jobs, jobs[x].deps)
    requires Count(Exec(steps + more).handed, x) >= 2
    ensures var s, s' := Exec(steps), Exec(steps + more);
            && x in s'.m.jobs && s'.m.jobs[x].deps == s.m.jobs[x].deps && DepsFinished(s'.m.jobs, s.m.jobs[x].deps)
            && i < |s'.done| && Count(s.m.jobs[x].deps, s'.done[i]) >= 2
            && forall j :: i < j < |s'.done| ==> s'.done[j] !in s.m.jobs[x].deps
  {
    var s' := Exec(steps + more);
    RunFollows(steps, more);
    RunInv(steps + more);
    assert Counted(s', x);
    i := LastInAt(s'.done, s'.m.jobs[x].deps);
  }

  lemma PlanCovers<R>(s: System<R>, s': System<R>, x: Id, i: nat)
    requires SystemOk(s) && SystemOk(s') && Follows(s, s') && x in s.m.jobs && !DepsFinished(s.m.jobs, s.m.jobs[x].deps)
    requires DepsFinished(s'.m.jobs, s.m.jobs[x].deps) && i < |s'.done| && Count(s.m.jobs[x].deps, s'.done[i]) >= 2
    requires forall j :: i < j < |s'.done| ==> s'.done[j] !in s.m.jobs[x].deps
    ensures |s.done| <= i
    ensures var plan := Stored(s.m.jobs, s'.done[|s.done|..i + 1]);
            && plan != [] && plan[|plan| - 1] == s'.done[i]
            && forall d :: d in s.m.jobs[x].deps ==> Done(s.m.jobs, d) || d in plan
  {
    var deps := s.m.jobs[x].deps;
    assert JobOk(s.m.jobs, x);
    CountMember(deps, s'.done[i]);
    var e :| e in deps && !Done(s.m.jobs, e);
    PlanHas(s, s', deps, i, e);
    assert s'.done[|s.done|..i + 1][i - |s.done|] == s'.done[i];
    forall d | d in deps && !Done(s.m.jobs, d) ensures d in Stored(s.m.jobs, s'.done[|s.done|..i + 1]) {
      PlanHas(s, s', deps, i, d);
    }
  }

  lemma PlanHas<R>(s: System<R>, s': System<R>, deps: seq<Id>, i: nat, d: Id)
    requires SystemOk(s) && SystemOk(s') && s.done <= s'.done && d in deps && !Done(s.m.jobs, d) && Done(s'.m.jobs, d)
    requires i < |s'.done| && (forall j :: i < j < |s'.done| ==> s'.done[j] !in deps) && d in s.m.jobs
    ensures |s.done| <= i && d in Stored(s.m.jobs, s'.done[|s.done|..i + 1])
  {
    FinishedAfter(s, s', deps, i, d);
    StoredMember(s.m.jobs, s'.done[|s.done|..i + 1], d);
  }

  lemma FinishedAfter<R>(s: System<R>, s': System<R>, deps: seq<Id>, i: nat, d: Id)
    requires SystemOk(s) && SystemOk(s') && s.done <= s'.done && d in deps && !Done(s.m.jobs, d) && Done(s'.m.jobs, d)
    requires i < |s'.done| && forall j :: i < j < |s'.done| ==> s'.done[j] !in deps
    ensures |s.done| <= i && d in s'.done[|s.done|..i + 1]
  {
    assert d in s.done <==> Done(s.m.jobs, d);
    assert d in s'.done <==> Done(s'.m.jobs, d);
    var j :| 0 <= j < |s'.done| && s'.done[j] == d;
    assert s'.done[..|s.done|] == s.done;
    assert |s.done| <= j <= i;
    assert s'.done[|s.done|..i + 1][j - |s.done|] == d;
  }

  /**
   A job that waits, for instance one just enqueued, is handed out twice in some continuation if
   and only if the stored jobs have a plan that finishes its dependencies and ends with one that
   it lists more than once.
   */
  lemma HandedTwiceExactly<R>(steps: seq<Step<R>>, x: Id, result: R)
    requires var jobs := Exec(steps).m.jobs; x in jobs && !jobs[x].canceled && !DepsFinished(jobs, jobs[x].deps)
    ensures (exists more :: Count(Exec(steps + more).handed, x) >= 2) <==> exists plan :: RepeatedLast(Exec(steps).m.jobs, x, plan)
  {
    if plan :| RepeatedLast(Exec(steps).m.jobs, x, plan) {
      var more := PlanHandsTwice(steps, x, plan, result);
    }
    if more :| Count(Exec(steps + more).handed, x) >= 2 {
      var plan := TwiceMeansPlan(steps, x, more);
    }
  }
}
