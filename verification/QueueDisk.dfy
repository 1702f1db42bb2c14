/**
 The directory of the file-system queue (internal/jobqueue/fsjobqueue/fsjobqueue.go): one
 file per job, written through temporary files, and read back as a whole on start-up.
 */
module QueueDisk {
  import opened Wrappers
  import opened Strings
  import opened JobQueue
  import opened JsonDb

  /** The UUID library: it writes ids as 36 characters, reads them back, and accepts texts of four lengths only. */
  datatype Uuids = Uuids(text: Id -> string, parse: string -> Option<Id>) {
    ghost predicate Ok() {
      && (forall id: Id :: |text(id)| == 36 && parse(text(id)) == Some(id))
      && (forall s :: parse(s).Some? ==> |s| == 32 || |s| == 36 || |s| == 38 || |s| == 45)
    }
  }

  const EXT := ".json"
  const TMP := ".tmp"

  function JobFile(u: Uuids, id: Id): string {
    u.text(id) + EXT
  }

  /** A name that `ioutil.TempFile` makes for a write of `JobFile`. */
  function TempFile(u: Uuids, id: Id, rand: string): string {
    u.text(id) + EXT + "-" + rand + TMP
  }

  function TrimSuffix(s: string, suffix: string): string {
    if HasSuffix(s, suffix) then s[..|s| - |suffix|] else s
  }

  ghost predicate IsTemp(u: Uuids, name: string) {
    exists id, rand :: rand != "" && name == TempFile(u, id, rand)
  }

  ghost predicate IsJob(u: Uuids, name: string) {
    exists id :: name == JobFile(u, id)
  }

  /** The listed name is a job id, and the file of that job can be read. */
  predicate Loadable<D>(u: Uuids, dir: Dir<D>, name: string) {
    var id := u.parse(TrimSuffix(name, EXT));
    id.Some? && ReadFile(dir, JobFile(u, id.value)).Read?
  }

  /** `New` succeeds. */
  predicate Loads<D>(u: Uuids, dir: Dir<D>) {
    forall name :: name in dir ==> Loadable(u, dir, name)
  }

  /** The loop of `New` over the listed names, up to the jobs it reads. */
  method LoadIds<D>(u: Uuids, dir: Dir<D>) returns (ids: Option<seq<Id>>)
    ensures ids.Some? <==> Loads(u, dir)
    ensures ids.Some? ==> forall id :: id in ids.value <==> exists name :: name in dir && u.parse(TrimSuffix(name, EXT)) == Some(id)
  {
    var names := Listed(dir.Keys);
    var found: seq<Id> := [];
    for k := 0 to |names|
      invariant forall n :: n in names[..k] ==> n in dir && Loadable(u, dir, n)
      invariant forall id :: id in found <==> exists n :: n in names[..k] && u.parse(TrimSuffix(n, EXT)) == Some(id)
    {
      assert names[k] in ToSet(names);
      assert names[..k + 1] == names[..k] + [names[k]];
      var id := u.parse(TrimSuffix(names[k], EXT));
      if id.None? || !ReadFile(dir, JobFile(u, id.value)).Read? {
        assert !Loadable(u, dir, names[k]);
        return None;
      }
      found := found + [id.value];
    }
    assert names[..|names|] == names;
    assert forall n :: n in dir <==> n in ToSet(names);
    return Some(found);
  }

  /** Temporary names end in ".tmp" and are too long for a UUID. */
  lemma TempNotLoadable<D>(u: Uuids, dir: Dir<D>, name: string)
    requires u.Ok() && IsTemp(u, name)
    ensures !Loadable(u, dir, name)
  {
    var id, rand :| rand != "" && name == TempFile(u, id, rand);
    assert |u.text(id)| == 36 && |name| >= 47;
    assert name[|name| - 1] == TMP[3] == 'p' && EXT[|EXT| - 1] == 'n';
    LastOfSuffix(name, EXT);
    assert TrimSuffix(name, EXT) == name;
  }

  lemma LastOfSuffix(s: string, suffix: string)
    requires suffix != ""
    ensures HasSuffix(s, suffix) ==> s != "" && s[|s| - 1] == suffix[|suffix| - 1]
  {
    if HasSuffix(s, suffix) {
      assert s[|s| - |suffix|..][|suffix| - 1] == suffix[|suffix| - 1];
    }
  }

  lemma JobName(u: Uuids, id: Id)
    requires u.Ok()
    ensures u.parse(TrimSuffix(JobFile(u, id), EXT)) == Some(id) && !IsTemp(u, JobFile(u, id))
  {
    var name := JobFile(u, id);
    assert |u.text(id)| == 36 && name[36..] == EXT && name[..36] == u.text(id);
    forall x, rand | rand != "" ensures name != TempFile(u, x, rand) {
      assert |u.text(x)| == 36;
      assert |TempFile(u, x, rand)| >= 47;
    }
  }

  // ----- the step machine -----

  datatype Phase<D> = Idle | Storing(id: Id, tmp: string, stage: Stage, doc: D) | Down

  datatype System<D> = System(dir: Dir<D>, phase: Phase<D>)

  datatype Event<D> =
    | Begin(id: Id, rand: string, doc: D, total: nat)
    | DoFile(a: Action)
    | Abort(removed: bool)
    | Crash
    | Restart

  /**
   `Begin` is a write of one job up to its temporary file. `Abort` is a file operation that
   fails, with the attempt to remove that file; the queue returns an error and lives on.
   `Restart` is `New`, which happens only if everything in the directory loads.
   */
  predicate Next<D(==)>(u: Uuids, s: System<D>, e: Event<D>, s': System<D>) {
    match e
    case Begin(id, rand, doc, total) =>
      var tmp := TempFile(u, id, rand);
      && s.phase == Idle && rand != "" && tmp !in s.dir
      && s' == System(s.dir[tmp := File(doc, 0, total)], Storing(id, tmp, Created, doc))
    case DoFile(a) =>
      && s.phase.Storing? && a != Remove && CanAct(s.dir, s.phase.tmp, s.phase.stage, a)
      && var dir := Act(s.dir, JobFile(u, s.phase.id), s.phase.tmp, a);
         s' == System(dir, if a == Rename then Idle else s.phase.(stage := NextStage(s.phase.stage, a)))
    case Abort(removed) =>
      && s.phase.Storing?
      && s' == System(if removed then s.dir - {s.phase.tmp} else s.dir, Idle)
    case Crash =>
      s' == s.(phase := Down)
    case Restart =>
      s.phase == Down && Loads(u, s.dir) && s' == s.(phase := Idle)
  }

  ghost predicate Behaviour<D>(u: Uuids, run: seq<System<D>>, events: seq<Event<D>>) {
    && |run| == |events| + 1 && run[0] == System(map[], Idle)
    && forall k :: 0 <= k < |events| ==> StepAt(u, run, events, k)
  }

  predicate StepAt<D(==)>(u: Uuids, run: seq<System<D>>, events: seq<Event<D>>, k: int)
    requires 0 <= k < |events| < |run|
  {
    Next(u, run[k], events[k], run[k + 1])
  }

  // ----- when a restart succeeds -----

  /** Event `j` leaves a temporary file behind: a crash during a write, or a failed removal. */
  predicate Leaves<D(==)>(run: seq<System<D>>, events: seq<Event<D>>, j: int) {
    0 <= j < |events| <= |run| && (events[j] == Abort(false) || (events[j] == Crash && run[j].phase.Storing?))
  }

  /** A temporary file that no write in progress owns. */
  ghost predicate Litter<D>(u: Uuids, s: System<D>, name: string) {
    name in s.dir && IsTemp(u, name) && (s.phase.Storing? ==> name != s.phase.tmp)
  }

  ghost predicate Inv<D>(u: Uuids, s: System<D>) {
    && (forall name :: name in s.dir ==> IsTemp(u, name) || (IsJob(u, name) && s.dir[name].Complete()))
    && (s.phase.Storing? ==> IsTemp(u, s.phase.tmp) && TmpOk(s.dir, s.phase.tmp, s.phase.stage, s.phase.doc))
  }

  lemma NextKeepsInv<D>(u: Uuids, s: System<D>, e: Event<D>, s': System<D>)
    requires u.Ok() && Inv(u, s) && Next(u, s, e, s')
    ensures Inv(u, s')
  {
    if e.DoFile? {
      var name, tmp := JobFile(u, s.phase.id), s.phase.tmp;
      JobName(u, s.phase.id);
      ActIsAtomic(s.dir, name, tmp, s.phase.stage, s.phase.doc, e.a);
      assert IsJob(u, name);
    } else if e.Begin? {
      assert IsTemp(u, TempFile(u, e.id, e.rand));
    }
  }

  /** Litter appears exactly at the events that leave a file behind, and never goes away. */
  lemma NextLitter<D>(u: Uuids, s: System<D>, e: Event<D>, s': System<D>, name: string)
    requires u.Ok() && Inv(u, s) && Next(u, s, e, s')
    ensures Litter(u, s', name) <==>
            Litter(u, s, name) || (s.phase.Storing? && name == s.phase.tmp && (e == Abort(false) || e == Crash))
  {
    if e.DoFile? {
      JobName(u, s.phase.id);
    }
  }

  ghost predicate HasLitter<D>(u: Uuids, s: System<D>) {
    exists name :: Litter(u, s, name)
  }

  lemma NextHasLitter<D>(u: Uuids, s: System<D>, e: Event<D>, s': System<D>)
    requires u.Ok() && Inv(u, s) && Next(u, s, e, s')
    ensures HasLitter(u, s') <==> HasLitter(u, s) || (s.phase.Storing? && (e == Abort(false) || e == Crash))
  {
    if name :| Litter(u, s', name) {
      NextLitter(u, s, e, s', name);
    }
    if name :| Litter(u, s, name) {
      NextLitter(u, s, e, s', name);
    }
    if s.phase.Storing? {
      NextLitter(u, s, e, s', s.phase.tmp);
    }
  }

  ghost predicate LeftBefore<D>(run: seq<System<D>>, events: seq<Event<D>>, k: nat) {
    exists j :: 0 <= j < k && Leaves(run, events, j)
  }

  lemma LeftNext<D>(run: seq<System<D>>, events: seq<Event<D>>, k: nat)
    ensures LeftBefore(run, events, k + 1) <==> LeftBefore(run, events, k) || Leaves(run, events, k)
  {
  }

  lemma {:induction false} LitterExactly<D>(u: Uuids, run: seq<System<D>>, events: seq<Event<D>>, k: nat)
    requires u.Ok() && Behaviour(u, run, events) && k < |run|
    ensures Inv(u, run[k]) && (HasLitter(u, run[k]) <==> LeftBefore(run, events, k))
  {
    if k == 0 {
      LitterStart(u, run[0]);
    } else {
      LitterExactly(u, run, events, k - 1);
      assert StepAt(u, run, events, k - 1);
      LitterStep(u, run, events, k - 1);
    }
  }

  lemma LitterStart<D>(u: Uuids, s: System<D>)
    requires s == System(map[], Idle)
    ensures Inv(u, s) && !HasLitter(u, s)
  {
  }

  lemma LitterStep<D>(u: Uuids, run: seq<System<D>>, events: seq<Event<D>>, k: nat)
    requires u.Ok() && k < |events| && |run| == |events| + 1 && Next(u, run[k], events[k], run[k + 1])
    requires Inv(u, run[k]) && (HasLitter(u, run[k]) <==> LeftBefore(run, events, k))
    ensures Inv(u, run[k + 1]) && (HasLitter(u, run[k + 1]) <==> LeftBefore(run, events, k + 1))
  {
    NextKeepsInv(u, run[k], events[k], run[k + 1]);
    NextHasLitter(u, run[k], events[k], run[k + 1]);
    LeftNext(run, events, k);
  }

  /**
   At every moment without a write in progress, `New` would succeed if and only if no crash so
   far came during a write and no temporary file of a failed write could not be removed.
   */
  lemma RestartExactly<D>(u: Uuids, run: seq<System<D>>, events: seq<Event<D>>, k: nat)
    requires u.Ok() && Behaviour(u, run, events) && k < |run| && !run[k].phase.Storing?
    ensures Loads(u, run[k].dir) <==> !LeftBefore(run, events, k)
  {
    LitterExactly(u, run, events, k);
    var s := run[k];
    if !LeftBefore(run, events, k) {
      forall name | name in s.dir ensures Loadable(u, s.dir, name) {
        assert !Litter(u, s, name);
        var id :| name == JobFile(u, id);
        JobName(u, id);
      }
    } else {
      var name :| Litter(u, s, name);
      TempNotLoadable(u, s.dir, name);
    }
  }

  /** A job file is never seen half-written, not even while it is being replaced. */
  lemma JobsAreWhole<D>(u: Uuids, run: seq<System<D>>, events: seq<Event<D>>, k: nat, id: Id)
    requires u.Ok() && Behaviour(u, run, events) && k < |run|
    ensures ReadFile(run[k].dir, JobFile(u, id)) != Torn
  {
    LitterExactly(u, run, events, k);
    JobName(u, id);
  }

  /** Once down with a temporary file left behind, the queue never comes up again by itself. */
  lemma {:induction false} StaysDown<D>(u: Uuids, run: seq<System<D>>, events: seq<Event<D>>, j: nat, k: nat, m: nat)
    requires u.Ok() && Behaviour(u, run, events) && j < k <= m < |run|
    requires Leaves(run, events, j) && run[k].phase == Down
    ensures run[m].phase == Down && !Loads(u, run[m].dir)
  {
    if k < m {
      StaysDown(u, run, events, j, k, m - 1);
      assert StepAt(u, run, events, m - 1);
    }
    RestartExactly(u, run, events, m);
  }

  /** From any state at rest, a crash right after a write has begun gets there. */
  lemma CrashStrands<D>(u: Uuids, run: seq<System<D>>, events: seq<Event<D>>, id: Id, rand: string, doc: D)
    returns (run': seq<System<D>>, events': seq<Event<D>>)
    requires u.Ok() && Behaviour(u, run, events) && run[|events|].phase == Idle
    requires rand != "" && TempFile(u, id, rand) !in run[|events|].dir
    ensures Behaviour(u, run', events') && |run'| == |run| + 2 && run <= run'
    ensures run'[|run'| - 1].phase == Down && !Loads(u, run'[|run'| - 1].dir)
  {
    var s, tmp, e := run[|events|], TempFile(u, id, rand), Begin(id, rand, doc, 1);
    var begun := System(s.dir[tmp := File(doc, 0, 1)], Storing(id, tmp, Created, doc));
    run', events' := run + [begun, begun.(phase := Down)], events + [e, Crash];
    forall k | 0 <= k < |events'| ensures StepAt(u, run', events', k) {
      if k < |events| {
        assert StepAt(u, run, events, k);
      }
    }
    assert Leaves(run', events', |events| + 1);
    RestartExactly(u, run', events', |events'|);
  }
}
