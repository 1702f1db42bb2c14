/**
 The documented contract of the job queue (internal/jobqueue/jobqueue.go) as
 functions on the table of jobs. Both the file-system queue and the Koji
 protocol are stated against these functions.
 */
module JobQueue {
  import opened Wrappers

  /** Stands for a UUID; the queue only compares ids and draws fresh ones. */
  type Id = nat

  /** The part of a stored job that decides its life cycle. `R` is the raw result. */
  datatype Job<R> = Job(
    jobType: string,
    deps: seq<Id>,
    started: bool,
    finished: bool,
    canceled: bool,
    result: Option<R>)

  type Jobs<R> = map<Id, Job<R>>

  datatype QueueError = ErrNotExist | ErrNotRunning | ErrCanceled

  datatype Outcome<R> = Changed(jobs: Jobs<R>) | Refused(error: QueueError)

  function NewJob<R>(jobType: string, deps: seq<Id>): Job<R> {
    Job(jobType, deps, false, false, false, None)
  }

  predicate Done<R>(jobs: Jobs<R>, id: Id) {
    id in jobs && jobs[id].finished
  }

  predicate DepsFinished<R>(jobs: Jobs<R>, deps: seq<Id>) {
    forall d :: d in deps ==> Done(jobs, d)
  }

  /** A job a worker may be handed. */
  predicate Ready<R>(jobs: Jobs<R>, id: Id) {
    id in jobs && !jobs[id].started && !jobs[id].canceled && DepsFinished(jobs, jobs[id].deps)
  }

  function Start<R>(jobs: Jobs<R>, id: Id): Jobs<R>
    requires id in jobs
  {
    jobs[id := jobs[id].(started := true)]
  }

  function Finish<R>(jobs: Jobs<R>, id: Id, result: R): Outcome<R> {
    if id !in jobs then Refused(ErrNotExist)
    else if jobs[id].canceled then Refused(ErrCanceled)
    else if !jobs[id].started || jobs[id].finished then Refused(ErrNotRunning)
    else Changed(jobs[id := jobs[id].(finished := true, result := Some(result))])
  }

  function Cancel<R>(jobs: Jobs<R>, id: Id): Outcome<R> {
    if id !in jobs then Refused(ErrNotExist)
    else if jobs[id].finished then Refused(ErrNotRunning)
    else Changed(jobs[id := jobs[id].(canceled := true)])
  }

  /** What every reachable job table satisfies. */
  ghost predicate JobsOk<R>(jobs: Jobs<R>) {
    forall id :: id in jobs ==> JobOk(jobs, id)
  }

  ghost predicate JobOk<R>(jobs: Jobs<R>, id: Id)
    requires id in jobs
  {
    && (forall d :: d in jobs[id].deps ==> d in jobs)
    && (jobs[id].started ==> DepsFinished(jobs, jobs[id].deps))
    && (jobs[id].finished ==> jobs[id].started && !jobs[id].canceled)
    && (jobs[id].finished <==> jobs[id].result.Some?)
  }

  /** How a job may evolve: nothing is undone, and a finished job is frozen. */
  predicate Advances<R(==)>(a: Job<R>, b: Job<R>) {
    && a.jobType == b.jobType && a.deps == b.deps
    && (a.started ==> b.started)
    && (a.canceled ==> b.canceled && !b.finished)
    && (a.finished ==> b == a)
  }

  ghost predicate AllAdvance<R>(jobs: Jobs<R>, jobs': Jobs<R>) {
    forall id :: id in jobs ==> id in jobs' && Advances(jobs[id], jobs'[id])
  }

  /** The operations of the interface. `Enqueue` draws an unused id; a job is handed out only when ready. */
  datatype QueueOp<R> =
    | OpEnqueue(id: Id, jobType: string, deps: seq<Id>)
    | OpDequeue(id: Id)
    | OpFinish(id: Id, result: R)
    | OpCancel(id: Id)

  function Operate<R>(jobs: Jobs<R>, op: QueueOp<R>): Jobs<R> {
    match op
    case OpEnqueue(id, jobType, deps) =>
      if id in jobs || exists d :: d in deps && d !in jobs then jobs else jobs[id := NewJob(jobType, deps)]
    case OpDequeue(id) => if Ready(jobs, id) then Start(jobs, id) else jobs
    case OpFinish(id, result) => (match Finish(jobs, id, result) case Changed(j) => j case Refused(_) => jobs)
    case OpCancel(id) => (match Cancel(jobs, id) case Changed(j) => j case Refused(_) => jobs)
  }

  function OperateAll<R>(jobs: Jobs<R>, ops: seq<QueueOp<R>>): Jobs<R> {
    if ops == [] then jobs else Operate(OperateAll(jobs, ops[..|ops| - 1]), ops[|ops| - 1])
  }

  /** Exactly when each operation changes something, and what. */
  lemma OperateMeans<R>(jobs: Jobs<R>, id: Id, jobType: string, deps: seq<Id>, result: R)
    ensures Operate(jobs, OpEnqueue(id, jobType, deps)) ==
            if id !in jobs && forall d :: d in deps ==> d in jobs
            then jobs[id := Job(jobType, deps, false, false, false, None)] else jobs
    ensures Operate(jobs, OpDequeue(id)) ==
            if id in jobs && !jobs[id].started && !jobs[id].canceled && forall d :: d in jobs[id].deps ==> d in jobs && jobs[d].finished
            then jobs[id := jobs[id].(started := true)] else jobs
    ensures Operate(jobs, OpFinish(id, result)) ==
            if id in jobs && jobs[id].started && !jobs[id].finished && !jobs[id].canceled
            then jobs[id := jobs[id].(finished := true, result := Some(result))] else jobs
    ensures Operate(jobs, OpCancel(id)) ==
            if id in jobs && !jobs[id].finished then jobs[id := jobs[id].(canceled := true)] else jobs
  {
  }

  lemma CanceledIsFrozen<R>(jobs: Jobs<R>, op: QueueOp<R>, id: Id)
    requires id in jobs && jobs[id].canceled && !jobs[id].finished
    ensures id in Operate(jobs, op) && Operate(jobs, op)[id] == jobs[id]
  {
  }

  /**
   Cancelling an unfinished job changes exactly its flag, and whatever follows, the job is
   never started, finished or changed in any other way again.
   */
  lemma {:induction false} CancelIsFinal<R>(jobs: Jobs<R>, id: Id, ops: seq<QueueOp<R>>)
    requires id in jobs && !jobs[id].finished
    ensures var canceled := Operate(jobs, OpCancel(id));
            && canceled == jobs[id := jobs[id].(canceled := true)]
            && id in OperateAll(canceled, ops) && OperateAll(canceled, ops)[id] == jobs[id].(canceled := true)
  {
    if ops != [] {
      CancelIsFinal(jobs, id, ops[..|ops| - 1]);
      CanceledIsFrozen(OperateAll(Operate(jobs, OpCancel(id)), ops[..|ops| - 1]), ops[|ops| - 1], id);
    }
  }

  /** One operation keeps a job good and lets it advance. */
  lemma OperateJob<R>(jobs: Jobs<R>, op: QueueOp<R>, id: Id)
    requires id in jobs && JobOk(jobs, id)
    ensures id in Operate(jobs, op) && JobOk(Operate(jobs, op), id) && Advances(jobs[id], Operate(jobs, op)[id])
  {
    var jobs' := Operate(jobs, op);
    assert forall d :: Done(jobs, d) ==> Done(jobs', d);
    assert forall d :: d in jobs ==> d in jobs';
  }

  lemma OperateAdvances<R>(jobs: Jobs<R>, op: QueueOp<R>)
    requires JobsOk(jobs)
    ensures JobsOk(Operate(jobs, op)) && AllAdvance(jobs, Operate(jobs, op))
  {
    var jobs' := Operate(jobs, op);
    forall id | id in jobs ensures id in jobs' && JobOk(jobs', id) && Advances(jobs[id], jobs'[id]) {
      OperateJob(jobs, op, id);
    }
  }

  /**
   Over every run of the queue: a started job's dependencies are finished, a finished job is
   never touched again, a canceled one never finishes, and dependency lists stay as given.
   */
  lemma {:induction false} QueueContract<R>(jobs: Jobs<R>, ops: seq<QueueOp<R>>)
    requires JobsOk(jobs)
    ensures JobsOk(OperateAll(jobs, ops)) && AllAdvance(jobs, OperateAll(jobs, ops))
  {
    if ops != [] {
      QueueContract(jobs, ops[..|ops| - 1]);
      var before := OperateAll(jobs, ops[..|ops| - 1]);
      OperateAdvances(before, ops[|ops| - 1]);
      AllAdvanceTransitive(jobs, before, OperateAll(jobs, ops));
    }
  }

  lemma AllAdvanceTransitive<R>(a: Jobs<R>, b: Jobs<R>, c: Jobs<R>)
    requires AllAdvance(a, b) && AllAdvance(b, c) && JobsOk(a)
    ensures AllAdvance(a, c)
  {
    forall id | id in a ensures id in c && Advances(a[id], c[id]) {
      assert Advances(a[id], b[id]) && Advances(b[id], c[id]);
    }
  }
}

/**
 The file-system queue (internal/jobqueue/fsjobqueue/fsjobqueue.go): pending
 channels per job type and the in-memory `dependants` index, over the stored
 table of jobs.
 */
module FsJobQueue {
  import opened Wrappers
  import opened Strings
  import opened JobQueue

  type Pending = map<string, seq<Id>>
  type Dependants = map<Id, seq<Id>>

  /** The channel of a job type; a missing channel is an empty one. */
  function Channel(pending: Pending, t: string): seq<Id> {
    if t in pending then pending[t] else []
  }

  function Waiting(dependants: Dependants, d: Id): seq<Id> {
    if d in dependants then dependants[d] else []
  }

  /** Occurrences of `x` in a list. */
  function Count(s: seq<Id>, x: Id): nat {
    if s == [] then 0 else Count(s[..|s| - 1], x) + if s[|s| - 1] == x then 1 else 0
  }

  predicate Pushable<R>(jobs: Jobs<R>, x: Id) {
    x in jobs && !jobs[x].started && DepsFinished(jobs, jobs[x].deps)
  }

  /** `maybeEnqueue`, first branch: send a runnable job to its channel. */
  function Push<R>(jobs: Jobs<R>, pending: Pending, x: Id): Pending {
    if Pushable(jobs, x)
    then pending[jobs[x].jobType := Channel(pending, jobs[x].jobType) + [x]]
    else pending
  }

  /** `maybeEnqueue(_, false)` for a list of dependants, in order. */
  function Notify<R>(jobs: Jobs<R>, pending: Pending, ids: seq<Id>): Pending {
    if ids == [] then pending
    else Push(jobs, Notify(jobs, pending, ids[..|ids| - 1]), ids[|ids| - 1])
  }

  /** Append `id` to the dependants of every listed dependency, in order. */
  function Subscribe(dependants: Dependants, id: Id, deps: seq<Id>): Dependants {
    if deps == [] then dependants
    else
      var rest := Subscribe(dependants, id, deps[..|deps| - 1]);
      var d := deps[|deps| - 1];
      rest[d := Waiting(rest, d) + [id]]
  }

  /**
   The queue invariant, for the jobs registered so far (`known`). Its heart is
   `NotLost`: a job that could run is in its channel, and a job that waits is listed
   under every unfinished dependency, as often as it lists that dependency.
   */
  ghost predicate Inv<R>(jobs: Jobs<R>, pending: Pending, dependants: Dependants, known: set<Id>) {
    && JobsOk(jobs)
    && known <= jobs.Keys
    && forall x :: Placed(jobs, pending, dependants, known, x)
  }

  /** Where job `x` may and must appear in the two indexes. */
  ghost predicate Placed<R>(jobs: Jobs<R>, pending: Pending, dependants: Dependants, known: set<Id>, x: Id) {
    && (forall t :: MayChannel(jobs, pending, known, x, t))
    && (forall d :: MayWait(jobs, dependants, known, x, d))
    && (x in known && x in jobs ==> NotLost(jobs, pending, dependants, x))
    && (x in jobs && Unrepeated(jobs[x].deps) ==> AtMostOnce(jobs, pending, x))
  }

  /** Only registered jobs whose dependencies have finished are in a channel, the one of their type. */
  ghost predicate MayChannel<R>(jobs: Jobs<R>, pending: Pending, known: set<Id>, x: Id, t: string) {
    Count(Channel(pending, t), x) > 0 ==>
      x in known && x in jobs && jobs[x].jobType == t && DepsFinished(jobs, jobs[x].deps)
  }

  /** Only registered jobs wait for another, and at most as often as they list it. */
  ghost predicate MayWait<R>(jobs: Jobs<R>, dependants: Dependants, known: set<Id>, x: Id, d: Id) {
    Count(Waiting(dependants, d), x) > 0 ==>
      x in known && x in jobs && Count(Waiting(dependants, d), x) <= Count(jobs[x].deps, d)
  }

  ghost predicate NotLost<R>(jobs: Jobs<R>, pending: Pending, dependants: Dependants, x: Id)
    requires x in jobs
  {
    && (Ready(jobs, x) ==> Count(Channel(pending, jobs[x].jobType), x) > 0)
    && (forall d :: Subscribed(jobs, dependants, x, d))
  }

  ghost predicate Subscribed<R>(jobs: Jobs<R>, dependants: Dependants, x: Id, d: Id)
    requires x in jobs
  {
    d in jobs[x].deps && !Done(jobs, d) ==> Count(Waiting(dependants, d), x) == Count(jobs[x].deps, d)
  }

  /** Jobs whose dependency list has no repetition are queued at most once. */
  ghost predicate AtMostOnce<R>(jobs: Jobs<R>, pending: Pending, x: Id)
    requires x in jobs
  {
    && Count(Channel(pending, jobs[x].jobType), x) <= 1
    && (Count(Channel(pending, jobs[x].jobType), x) > 0 ==> !jobs[x].started)
  }

  /** No dependency is listed twice. */
  ghost predicate Unrepeated(deps: seq<Id>) {
    forall d :: Count(deps, d) <= 1
  }

  lemma {:induction false} CountMember(s: seq<Id>, x: Id)
    ensures Count(s, x) > 0 <==> x in s
  {
    if s != [] {
      CountMember(s[..|s| - 1], x);
      assert s == s[..|s| - 1] + [s[|s| - 1]];
    }
  }

  lemma {:induction false} CountFront(s: seq<Id>, x: Id)
    requires s != []
    ensures Count(s, x) == Count(s[1..], x) + if s[0] == x then 1 else 0
  {
    if |s| > 1 {
      CountFront(s[..|s| - 1], x);
      assert s[1..][..|s| - 2] == s[..|s| - 1][1..];
    }
  }

  lemma {:induction false} NoDupUnrepeated(s: seq<Id>, x: Id)
    requires NoDup(s)
    ensures Count(s, x) <= 1
  {
    if s != [] {
      NoDupUnrepeated(s[..|s| - 1], x);
      CountMember(s[..|s| - 1], x);
    }
  }

  lemma CountAppend(s: seq<Id>, y: Id, x: Id)
    ensures Count(s + [y], x) == Count(s, x) + if x == y then 1 else 0
  {
    assert (s + [y])[..|s|] == s;
  }

  lemma PushCounts<R>(jobs: Jobs<R>, pending: Pending, y: Id, t: string, x: Id)
    ensures Count(Channel(Push(jobs, pending, y), t), x) ==
            Count(Channel(pending, t), x) +
            if Pushable(jobs, x) && jobs[x].jobType == t && x == y then 1 else 0
  {
    CountAppend(Channel(pending, t), y, x);
  }

  /** Exactly which entries `Notify` adds to which channels. */
  lemma {:induction false} NotifyCounts<R>(jobs: Jobs<R>, pending: Pending, ids: seq<Id>, t: string, x: Id)
    ensures Count(Channel(Notify(jobs, pending, ids), t), x) ==
            Count(Channel(pending, t), x) +
            (if Pushable(jobs, x) && jobs[x].jobType == t then Count(ids, x) else 0)
  {
    if ids == [] {
    } else {
      var init, y := ids[..|ids| - 1], ids[|ids| - 1];
      NotifyCounts(jobs, pending, init, t, x);
      PushCounts(jobs, Notify(jobs, pending, init), y, t, x);
    }
  }

  /** Exactly which entries `Subscribe` adds. */
  lemma {:induction false} SubscribeCounts(dependants: Dependants, id: Id, deps: seq<Id>, d: Id, x: Id)
    ensures Count(Waiting(Subscribe(dependants, id, deps), d), x) ==
            Count(Waiting(dependants, d), x) + (if x == id then Count(deps, d) else 0)
  {
    if deps != [] {
      var init, last := deps[..|deps| - 1], deps[|deps| - 1];
      SubscribeCounts(dependants, id, init, d, x);
      SubscribeOne(Subscribe(dependants, id, init), id, last, d, x);
    }
  }

  lemma SubscribeOne(rest: Dependants, id: Id, e: Id, d: Id, x: Id)
    ensures Count(Waiting(rest[e := Waiting(rest, e) + [id]], d), x) ==
            Count(Waiting(rest, d), x) + if x == id && d == e then 1 else 0
  {
    CountAppend(Waiting(rest, e), id, x);
  }

  /** The two indexes after `maybeEnqueue(_, true)`. */
  function Registered<R>(jobs: Jobs<R>, pending: Pending, dependants: Dependants, id: Id): (Pending, Dependants)
    requires id in jobs
  {
    if jobs[id].started then (pending, dependants)
    else if DepsFinished(jobs, jobs[id].deps) then (Push(jobs, pending, id), dependants)
    else (pending, Subscribe(dependants, id, jobs[id].deps))
  }

  lemma RegisteredChannel<R>(jobs: Jobs<R>, pending: Pending, dependants: Dependants, id: Id, t: string, x: Id)
    requires id in jobs
    ensures Count(Channel(Registered(jobs, pending, dependants, id).0, t), x) == Count(Channel(pending, t), x) +
              if x == id && jobs[id].jobType == t && Pushable(jobs, id) then 1 else 0
  {
    PushCounts(jobs, pending, id, t, x);
  }

  lemma RegisteredWaiting<R>(jobs: Jobs<R>, pending: Pending, dependants: Dependants, id: Id, e: Id, x: Id)
    requires id in jobs
    ensures Count(Waiting(Registered(jobs, pending, dependants, id).1, e), x) == Count(Waiting(dependants, e), x) +
              if x == id && !jobs[id].started && !Pushable(jobs, id) then Count(jobs[id].deps, e) else 0
  {
    SubscribeCounts(dependants, id, jobs[id].deps, e, x);
  }

  /** Registering a further job extends the invariant to it. */
  lemma RegisterKeepsInv<R>(jobs: Jobs<R>, pending: Pending, dependants: Dependants, known: set<Id>, id: Id)
    requires Inv(jobs, pending, dependants, known)
    requires id in jobs && id !in known
    ensures var (p, d) := Registered(jobs, pending, dependants, id); Inv(jobs, p, d, known + {id})
  {
    var (p, d) := Registered(jobs, pending, dependants, id);
    forall x ensures Placed(jobs, p, d, known + {id}, x) {
      assert Placed(jobs, pending, dependants, known, x);
      RegisterPlaced(jobs, pending, dependants, known, id, x);
    }
  }

  lemma RegisterPlaced<R>(jobs: Jobs<R>, pending: Pending, dependants: Dependants, known: set<Id>, id: Id, x: Id)
    requires id in jobs && id !in known && (jobs[id].started ==> DepsFinished(jobs, jobs[id].deps))
    requires Placed(jobs, pending, dependants, known, x)
    ensures var (p, d) := Registered(jobs, pending, dependants, id); Placed(jobs, p, d, known + {id}, x)
  {
    var (p, d) := Registered(jobs, pending, dependants, id);
    forall t ensures MayChannel(jobs, p, known + {id}, x, t) {
      RegisteredChannel(jobs, pending, dependants, id, t, x);
      assert MayChannel(jobs, pending, known, x, t);
    }
    forall e ensures MayWait(jobs, d, known + {id}, x, e) {
      RegisteredWaiting(jobs, pending, dependants, id, e, x);
      assert MayWait(jobs, dependants, known, x, e);
    }
    if x in jobs {
      var t := jobs[x].jobType;
      RegisteredChannel(jobs, pending, dependants, id, t, x);
      assert MayChannel(jobs, pending, known, x, t);
      forall e ensures x in known + {id} ==> Subscribed(jobs, d, x, e) {
        RegisteredWaiting(jobs, pending, dependants, id, e, x);
        assert MayWait(jobs, dependants, known, x, e) && (x in known ==> Subscribed(jobs, dependants, x, e));
      }
    }
  }

  /** A step that finishes no job and changes no index keeps `x` where it was. */
  lemma StillPlaced<R>(jobs: Jobs<R>, jobs': Jobs<R>, pending: Pending, dependants: Dependants, known: set<Id>, x: Id)
    requires Placed(jobs, pending, dependants, known, x)
    requires forall d :: Done(jobs', d) == Done(jobs, d)
    requires x in jobs ==> x in jobs' && jobs'[x] == jobs[x].(canceled := jobs'[x].canceled, finished := jobs'[x].finished)
    requires x in jobs && jobs[x].canceled ==> jobs'[x].canceled
    requires x !in jobs ==> x !in known
    ensures Placed(jobs', pending, dependants, known, x)
  {
    forall t ensures MayChannel(jobs', pending, known, x, t) {
      assert MayChannel(jobs, pending, known, x, t);
    }
    forall d ensures MayWait(jobs', dependants, known, x, d) {
      assert MayWait(jobs, dependants, known, x, d);
    }
    if x in jobs {
      assert DepsFinished(jobs', jobs[x].deps) == DepsFinished(jobs, jobs[x].deps);
      forall d ensures x in known ==> Subscribed(jobs', dependants, x, d) {
        assert x in known ==> Subscribed(jobs, dependants, x, d);
      }
    } else {
      StrangerNotQueued(jobs, pending, dependants, known, x);
    }
  }

  /** A job that is not stored is in neither index. */
  lemma StrangerNotQueued<R>(jobs: Jobs<R>, pending: Pending, dependants: Dependants, known: set<Id>, x: Id)
    requires Placed(jobs, pending, dependants, known, x) && x !in jobs
    ensures forall t :: Count(Channel(pending, t), x) == 0
  {
    forall t ensures Count(Channel(pending, t), x) == 0 {
      assert MayChannel(jobs, pending, known, x, t);
    }
  }

  /** Storing a new job leaves the registered ones in place. */
  lemma StoreKeepsInv<R>(jobs: Jobs<R>, pending: Pending, dependants: Dependants, id: Id, job: Job<R>)
    requires Inv(jobs, pending, dependants, jobs.Keys)
    requires id !in jobs && job == NewJob(job.jobType, job.deps)
    requires forall d :: d in job.deps ==> d in jobs
    ensures Inv(jobs[id := job], pending, dependants, jobs.Keys)
  {
    var jobs' := jobs[id := job];
    assert forall d :: Done(jobs', d) == Done(jobs, d);
    forall x ensures Placed(jobs', pending, dependants, jobs.Keys, x) {
      assert Placed(jobs, pending, dependants, jobs.Keys, x);
      StillPlaced(jobs, jobs', pending, dependants, jobs.Keys, x);
    }
  }

  /** Taking the head off a channel moves nothing else. */
  lemma PopPlaced<R>(jobs: Jobs<R>, pending: Pending, dependants: Dependants, t: string, x: Id)
    requires Channel(pending, t) != [] && Placed(jobs, pending, dependants, jobs.Keys, x)
    requires x == pending[t][0] ==> x in jobs && jobs[x].canceled
    ensures Placed(jobs, pending[t := pending[t][1..]], dependants, jobs.Keys, x)
  {
    var pending' := pending[t := pending[t][1..]];
    forall u ensures MayChannel(jobs, pending', jobs.Keys, x, u) {
      PopCount(pending, t, u, x);
      assert MayChannel(jobs, pending, jobs.Keys, x, u);
    }
    if x in jobs {
      PopCount(pending, t, jobs[x].jobType, x);
    }
  }

  /** The job that is started leaves its channel. */
  lemma StartedPlaced<R>(jobs: Jobs<R>, pending: Pending, dependants: Dependants, t: string)
    requires Channel(pending, t) != [] && pending[t][0] in jobs && jobs[pending[t][0]].jobType == t
    requires Placed(jobs, pending, dependants, jobs.Keys, pending[t][0])
    ensures Placed(Start(jobs, pending[t][0]), pending[t := pending[t][1..]], dependants, jobs.Keys, pending[t][0])
  {
    var x := pending[t][0];
    var jobs', pending' := Start(jobs, x), pending[t := pending[t][1..]];
    assert forall d :: Done(jobs', d) == Done(jobs, d);
    assert DepsFinished(jobs', jobs[x].deps) == DepsFinished(jobs, jobs[x].deps);
    forall u ensures MayChannel(jobs', pending', jobs.Keys, x, u) {
      PopCount(pending, t, u, x);
      assert MayChannel(jobs, pending, jobs.Keys, x, u);
    }
    forall d ensures MayWait(jobs', dependants, jobs.Keys, x, d) && Subscribed(jobs', dependants, x, d) {
      assert MayWait(jobs, dependants, jobs.Keys, x, d) && Subscribed(jobs, dependants, x, d);
    }
    assert !Ready(jobs', x);
    PopCount(pending, t, t, x);
  }

  /** Starting the head of a channel keeps the invariant. */
  lemma StartKeepsInv<R>(jobs: Jobs<R>, pending: Pending, dependants: Dependants, t: string)
    requires Inv(jobs, pending, dependants, jobs.Keys)
    requires Channel(pending, t) != [] && Channel(pending, t)[0] in jobs && !jobs[Channel(pending, t)[0]].canceled
    ensures Inv(Start(jobs, Channel(pending, t)[0]), pending[t := pending[t][1..]], dependants, jobs.Keys)
  {
    var id := pending[t][0];
    var jobs', pending' := Start(jobs, id), pending[t := pending[t][1..]];
    HeadPlaced(jobs, pending, dependants, t);
    assert forall d :: Done(jobs', d) == Done(jobs, d);
    forall x ensures Placed(jobs', pending', dependants, jobs.Keys, x) {
      assert Placed(jobs, pending, dependants, jobs.Keys, x);
      if x == id {
        StartedPlaced(jobs, pending, dependants, t);
      } else {
        PopPlaced(jobs, pending, dependants, t, x);
        StillPlaced(jobs, jobs', pending', dependants, jobs.Keys, x);
      }
    }
  }

  /** The head of a channel is a stored job of that type whose dependencies have finished. */
  lemma HeadPlaced<R>(jobs: Jobs<R>, pending: Pending, dependants: Dependants, t: string)
    requires Channel(pending, t) != [] && Placed(jobs, pending, dependants, jobs.Keys, pending[t][0])
    ensures pending[t][0] in jobs && jobs[pending[t][0]].jobType == t && DepsFinished(jobs, jobs[pending[t][0]].deps)
    ensures Count(Channel(pending, t), pending[t][0]) > 0
  {
    CountMember(Channel(pending, t), pending[t][0]);
    assert MayChannel(jobs, pending, jobs.Keys, pending[t][0], t);
  }

  /** A canceled head may be dropped. */
  lemma DropKeepsInv<R>(jobs: Jobs<R>, pending: Pending, dependants: Dependants, t: string)
    requires Inv(jobs, pending, dependants, jobs.Keys)
    requires Channel(pending, t) != [] && Channel(pending, t)[0] in jobs && jobs[Channel(pending, t)[0]].canceled
    ensures Inv(jobs, pending[t := pending[t][1..]], dependants, jobs.Keys)
  {
    var pending' := pending[t := pending[t][1..]];
    forall x ensures Placed(jobs, pending', dependants, jobs.Keys, x) {
      assert Placed(jobs, pending, dependants, jobs.Keys, x);
      PopPlaced(jobs, pending, dependants, t, x);
    }
  }

  lemma PopCount(pending: Pending, t: string, u: string, x: Id)
    requires Channel(pending, t) != []
    ensures Count(Channel(pending, u), x) ==
            Count(Channel(pending[t := pending[t][1..]], u), x) + if u == t && x == pending[t][0] then 1 else 0
  {
    CountFront(pending[t], x);
  }

  /** Finishing a job and notifying its dependants keeps the invariant, also while jobs are still being registered. */
  lemma FinishKeepsInv<R>(jobs: Jobs<R>, pending: Pending, dependants: Dependants, known: set<Id>, id: Id, result: R)
    requires Inv(jobs, pending, dependants, known)
    requires Finish(jobs, id, result).Changed?
    ensures var jobs' := Finish(jobs, id, result).jobs;
            Inv(jobs', Notify(jobs', pending, Waiting(dependants, id)), dependants - {id}, known)
  {
    var jobs' := Finish(jobs, id, result).jobs;
    var woken := Waiting(dependants, id);
    assert jobs'.Keys == jobs.Keys;
    forall x ensures Placed(jobs', Notify(jobs', pending, woken), dependants - {id}, known, x) {
      assert Placed(jobs, pending, dependants, known, x);
      FinishPlaced(jobs, pending, dependants, known, id, result, x);
    }
  }

  /** Whether finishing `id` makes `x` runnable. */
  lemma FinishDeps<R>(jobs: Jobs<R>, id: Id, result: R, deps: seq<Id>)
    requires Finish(jobs, id, result).Changed?
    ensures var jobs' := Finish(jobs, id, result).jobs;
            && (id in deps ==> !DepsFinished(jobs, deps))
            && (id !in deps ==> DepsFinished(jobs', deps) == DepsFinished(jobs, deps))
            && (DepsFinished(jobs, deps) ==> DepsFinished(jobs', deps))
            && forall d :: Done(jobs', d) <==> Done(jobs, d) || d == id
  {
    var jobs' := Finish(jobs, id, result).jobs;
    assert forall d :: Done(jobs', d) <==> Done(jobs, d) || d == id;
  }

  lemma FinishPlaced<R>(jobs: Jobs<R>, pending: Pending, dependants: Dependants, known: set<Id>, id: Id, result: R, x: Id)
    requires Finish(jobs, id, result).Changed?
    requires x in jobs && jobs[x].started ==> DepsFinished(jobs, jobs[x].deps)
    requires Placed(jobs, pending, dependants, known, x)
    ensures var jobs' := Finish(jobs, id, result).jobs;
            Placed(jobs', Notify(jobs', pending, Waiting(dependants, id)), dependants - {id}, known, x)
  {
    var jobs' := Finish(jobs, id, result).jobs;
    var pending', dependants' := Notify(jobs', pending, Waiting(dependants, id)), dependants - {id};
    assert MayWait(jobs, dependants, known, x, id);
    if x in jobs {
      FinishDeps(jobs, id, result, jobs[x].deps);
    }
    forall t ensures MayChannel(jobs', pending', known, x, t) {
      assert MayChannel(jobs, pending, known, x, t);
      NotifyCounts(jobs', pending, Waiting(dependants, id), t, x);
    }
    forall d ensures MayWait(jobs', dependants', known, x, d) {
      assert MayWait(jobs, dependants, known, x, d);
    }
    if x in jobs {
      FinishQueued(jobs, pending, dependants, known, id, result, x);
      forall d ensures x in known ==> Subscribed(jobs', dependants', x, d) {
        assert x in known ==> Subscribed(jobs, dependants, x, d);
      }
    }
  }

  /** A job made runnable by the end of `id` is sent to its channel as often as it waits for `id`. */
  lemma FinishQueued<R>(jobs: Jobs<R>, pending: Pending, dependants: Dependants, known: set<Id>, id: Id, result: R, x: Id)
    requires Finish(jobs, id, result).Changed? && x in jobs
    requires jobs[x].started ==> DepsFinished(jobs, jobs[x].deps)
    requires Placed(jobs, pending, dependants, known, x)
    ensures var jobs' := Finish(jobs, id, result).jobs;
            var pending' := Notify(jobs', pending, Waiting(dependants, id));
            && (x in known && Ready(jobs', x) ==> Count(Channel(pending', jobs[x].jobType), x) > 0)
            && (Unrepeated(jobs[x].deps) ==> AtMostOnce(jobs', pending', x))
  {
    var jobs', deps, t := Finish(jobs, id, result).jobs, jobs[x].deps, jobs[x].jobType;
    assert MayWait(jobs, dependants, known, x, id) && MayChannel(jobs, pending, known, x, t);
    assert x in known ==> Subscribed(jobs, dependants, x, id);
    NotifyCounts(jobs', pending, Waiting(dependants, id), t, x);
    FinishDeps(jobs, id, result, deps);
    CountMember(deps, id);
    assert Unrepeated(deps) ==> Count(deps, id) <= 1;
  }

  /** A job made runnable by the end of `id` is sent to its channel as often as it lists `id`. */
  lemma FinishSendsExactly<R>(jobs: Jobs<R>, pending: Pending, dependants: Dependants, id: Id, result: R, x: Id)
    requires Finish(jobs, id, result).Changed? && Inv(jobs, pending, dependants, jobs.Keys) && x in jobs
    ensures var jobs' := Finish(jobs, id, result).jobs;
            var pending' := Notify(jobs', pending, Waiting(dependants, id));
            var t := jobs[x].jobType;
            Count(Channel(pending', t), x) == Count(Channel(pending, t), x) +
              if !DepsFinished(jobs, jobs[x].deps) && DepsFinished(jobs', jobs[x].deps) then Count(jobs[x].deps, id) else 0
  {
    var jobs', deps := Finish(jobs, id, result).jobs, jobs[x].deps;
    assert JobOk(jobs, x) && Placed(jobs, pending, dependants, jobs.Keys, x);
    assert MayWait(jobs, dependants, jobs.Keys, x, id) && Subscribed(jobs, dependants, x, id);
    NotifyCounts(jobs', pending, Waiting(dependants, id), jobs[x].jobType, x);
    FinishDeps(jobs, id, result, deps);
    CountMember(deps, id);
  }

  lemma CancelKeepsInv<R>(jobs: Jobs<R>, pending: Pending, dependants: Dependants, id: Id)
    requires Inv(jobs, pending, dependants, jobs.Keys)
    requires Cancel(jobs, id).Changed?
    ensures Inv(Cancel(jobs, id).jobs, pending, dependants, jobs.Keys)
  {
    var jobs' := Cancel(jobs, id).jobs;
    assert forall d :: Done(jobs', d) == Done(jobs, d);
    forall x ensures Placed(jobs', pending, dependants, jobs.Keys, x) {
      assert Placed(jobs, pending, dependants, jobs.Keys, x);
      StillPlaced(jobs, jobs', pending, dependants, jobs.Keys, x);
    }
  }

  // ----- the operations on the whole memory of the queue -----

  /** The stored jobs and the two in-memory indexes. */
  datatype Memory<R> = Memory(jobs: Jobs<R>, pending: Pending, dependants: Dependants)

  function EnqueueIn<R>(m: Memory<R>, id: Id, jobType: string, deps: seq<Id>): Memory<R> {
    if id in m.jobs || exists d :: d in deps && d !in m.jobs then m
    else
      var jobs := m.jobs[id := NewJob(jobType, deps)];
      var (pending, dependants) := Registered(jobs, m.pending, m.dependants, id);
      Memory(jobs, pending, dependants)
  }

  /** A worker receives the head of a channel and starts it, or drops it if it was canceled. */
  function ReceiveIn<R>(m: Memory<R>, t: string): Memory<R> {
    if Channel(m.pending, t) == [] then m
    else
      var id := m.pending[t][0];
      Memory(if id in m.jobs && !m.jobs[id].canceled then Start(m.jobs, id) else m.jobs, m.pending[t := m.pending[t][1..]], m.dependants)
  }

  function ReceiveAllIn<R>(m: Memory<R>, types: seq<string>): Memory<R> {
    if types == [] then m else ReceiveIn(ReceiveAllIn(m, types[..|types| - 1]), types[|types| - 1])
  }

  function FinishIn<R>(m: Memory<R>, id: Id, result: R): Memory<R> {
    match Finish(m.jobs, id, result)
    case Changed(jobs) => Memory(jobs, Notify(jobs, m.pending, Waiting(m.dependants, id)), m.dependants - {id})
    case Refused(_) => m
  }

  function CancelIn<R>(m: Memory<R>, id: Id): Memory<R> {
    match Cancel(m.jobs, id)
    case Changed(jobs) => m.(jobs := jobs)
    case Refused(_) => m
  }

  ghost predicate MemoryOk<R>(m: Memory<R>) {
    Inv(m.jobs, m.pending, m.dependants, m.jobs.Keys)
  }

  lemma EnqueueInKeeps<R>(m: Memory<R>, id: Id, jobType: string, deps: seq<Id>)
    requires MemoryOk(m)
    ensures MemoryOk(EnqueueIn(m, id, jobType, deps))
  {
    if id !in m.jobs && forall d :: d in deps ==> d in m.jobs {
      var job: Job<R> := NewJob(jobType, deps);
      StoreKeepsInv(m.jobs, m.pending, m.dependants, id, job);
      RegisterKeepsInv(m.jobs[id := job], m.pending, m.dependants, m.jobs.Keys, id);
      assert m.jobs[id := job].Keys == m.jobs.Keys + {id};
    }
  }

  /** The head of a channel is a stored job of that type. */
  lemma HeadKnown<R>(m: Memory<R>, t: string)
    requires MemoryOk(m) && Channel(m.pending, t) != []
    ensures m.pending[t][0] in m.jobs && m.jobs[m.pending[t][0]].jobType == t
    ensures DepsFinished(m.jobs, m.jobs[m.pending[t][0]].deps)
  {
    assert Placed(m.jobs, m.pending, m.dependants, m.jobs.Keys, m.pending[t][0]);
    HeadPlaced(m.jobs, m.pending, m.dependants, t);
  }

  /** Without repeated dependencies, an uncanceled head is ready. */
  lemma HeadReady<R>(m: Memory<R>, t: string)
    requires MemoryOk(m) && Channel(m.pending, t) != [] && m.pending[t][0] in m.jobs && !m.jobs[m.pending[t][0]].canceled
    ensures Unrepeated(m.jobs[m.pending[t][0]].deps) ==> Ready(m.jobs, m.pending[t][0])
  {
    HeadKnown(m, t);
    CountMember(Channel(m.pending, t), m.pending[t][0]);
    assert Placed(m.jobs, m.pending, m.dependants, m.jobs.Keys, m.pending[t][0]);
  }

  lemma ReceiveInKeeps<R>(m: Memory<R>, t: string)
    requires MemoryOk(m)
    ensures MemoryOk(ReceiveIn(m, t)) && ReceiveIn(m, t).jobs.Keys == m.jobs.Keys
  {
    if Channel(m.pending, t) != [] {
      HeadKnown(m, t);
      if m.jobs[m.pending[t][0]].canceled {
        DropKeepsInv(m.jobs, m.pending, m.dependants, t);
      } else {
        StartKeepsInv(m.jobs, m.pending, m.dependants, t);
        assert Start(m.jobs, m.pending[t][0]).Keys == m.jobs.Keys;
      }
    }
  }

  lemma FinishInKeeps<R>(m: Memory<R>, id: Id, result: R)
    requires MemoryOk(m)
    ensures MemoryOk(FinishIn(m, id, result))
  {
    if Finish(m.jobs, id, result).Changed? {
      FinishKeepsInv(m.jobs, m.pending, m.dependants, m.jobs.Keys, id, result);
      assert Finish(m.jobs, id, result).jobs.Keys == m.jobs.Keys;
    }
  }

  lemma CancelInKeeps<R>(m: Memory<R>, id: Id)
    requires MemoryOk(m)
    ensures MemoryOk(CancelIn(m, id))
  {
    if Cancel(m.jobs, id).Changed? {
      CancelKeepsInv(m.jobs, m.pending, m.dependants, id);
      assert Cancel(m.jobs, id).jobs.Keys == m.jobs.Keys;
    }
  }

  /** The stored jobs after start-up: those left running without a token are failed with a null result. */
  function Recovered<R>(stored: Jobs<R>, orphans: set<Id>, failed: R): Jobs<R> {
    map id | id in stored :: if id in orphans then stored[id].(finished := true, result := Some(failed)) else stored[id]
  }

  lemma RecoveredNext<R>(stored: Jobs<R>, orphans: set<Id>, todo: set<Id>, failed: R, id: Id)
    requires id in todo && id in stored
    requires id in orphans ==> stored[id].started && !stored[id].finished && !stored[id].canceled
    ensures var jobs, jobs' := Recovered(stored, orphans - todo, failed), Recovered(stored, orphans - (todo - {id}), failed);
            && id in jobs
            && (if id in orphans then Finish(jobs, id, failed) == Changed(jobs') else jobs' == jobs)
  {
    assert id in orphans ==> orphans - (todo - {id}) == (orphans - todo) + {id};
    assert id !in orphans ==> orphans - (todo - {id}) == orphans - todo;
  }

  /** Before any job is registered both indexes are empty. */
  lemma NothingRegistered<R>(jobs: Jobs<R>)
    requires JobsOk(jobs)
    ensures Inv(jobs, map[], map[], {})
  {
    assert forall t, x :: Count(Channel(map[], t), x) == 0;
    assert forall d, x :: Count(Waiting(map[], d), x) == 0;
  }

  class Queue<R> {
    /** The stored jobs; the original re-reads them from disk on each access. */
    var jobs: Jobs<R>
    var pending: Pending
    var dependants: Dependants

    function Value(): Memory<R>
      reads this
    {
      Memory(jobs, pending, dependants)
    }

    ghost predicate Valid()
      reads this
    {
      MemoryOk(Value())
    }

    /**
     `New`: rebuild the in-memory indexes from the stored jobs, in any order. A running job
     stored without a token is failed on the way, while later jobs are not registered yet.
     */
    constructor (stored: Jobs<R>, orphans: set<Id>, failed: R)
      requires JobsOk(stored)
      requires forall id :: id in orphans ==> id in stored && stored[id].started && !stored[id].finished && !stored[id].canceled
      ensures Valid() && jobs == Recovered(stored, orphans, failed)
    {
      jobs, pending, dependants := stored, map[], map[];
      new;
      ghost var known: set<Id> := {};
      var todo := stored.Keys;
      NothingRegistered(stored);
      while todo != {}
        invariant todo <= stored.Keys && known == stored.Keys - todo
        invariant jobs == Recovered(stored, orphans - todo, failed)
        invariant Inv(jobs, pending, dependants, known)
        decreases todo
      {
        var id :| id in todo;
        RecoveredNext(stored, orphans, todo, failed, id);
        Restore(id, id in orphans, failed, known);
        todo, known := todo - {id}, known + {id};
      }
      assert orphans - todo == orphans;
      assert known == stored.Keys;
    }

    /** One turn of the loop of `New`. */
    method Restore(id: Id, orphan: bool, failed: R, ghost known: set<Id>)
      requires Inv(jobs, pending, dependants, known) && id in jobs && id !in known
      requires orphan ==> Finish(jobs, id, failed).Changed?
      modifies this
      ensures Inv(jobs, pending, dependants, known + {id})
      ensures jobs == if orphan then Finish(old(jobs), id, failed).jobs else old(jobs)
    {
      if orphan {
        FinishKeepsInv(jobs, pending, dependants, known, id, failed);
        jobs := jobs[id := jobs[id].(finished := true, result := Some(failed))];
        Wake(id);
      }
      RegisterKeepsInv(jobs, pending, dependants, known, id);
      MaybeEnqueue(id);
    }

    /** `maybeEnqueue(j, true)`. */
    method MaybeEnqueue(id: Id)
      requires id in jobs
      modifies this`pending, this`dependants
      ensures (pending, dependants) == Registered(jobs, old(pending), old(dependants), id)
    {
      if jobs[id].started {
        return;
      }
      if DepsFinished(jobs, jobs[id].deps) {
        pending := Push(jobs, pending, id);
      } else {
        var deps := jobs[id].deps;
        for n := 0 to |deps|
          invariant dependants == Subscribe(old(dependants), id, deps[..n])
          invariant pending == old(pending)
        {
          dependants := dependants[deps[n] := Waiting(dependants, deps[n]) + [id]];
          assert deps[..n + 1][..n] == deps[..n];
        }
        assert deps[..|deps|] == deps;
      }
    }

    /** The end of `FinishJob`: the dependants of a finished job are looked at again, then forgotten. */
    method Wake(id: Id)
      modifies this`pending, this`dependants
      ensures pending == Notify(jobs, old(pending), Waiting(old(dependants), id))
      ensures dependants == old(dependants) - {id}
    {
      var woken := Waiting(dependants, id);
      for n := 0 to |woken|
        invariant pending == Notify(jobs, old(pending), woken[..n]) && dependants == old(dependants)
      {
        pending := Push(jobs, pending, woken[n]);
        assert woken[..n + 1][..n] == woken[..n];
      }
      assert woken[..|woken|] == woken;
      dependants := dependants - {id};
    }

    /** The new job is stored under a fresh id; it exists even when it cannot run yet. */
    method Enqueue(jobType: string, deps: seq<Id>, fresh_id: Id) returns (r: Option<Id>)
      requires Valid() && fresh_id !in jobs
      modifies this
      ensures Valid() && Value() == EnqueueIn(old(Value()), fresh_id, jobType, deps)
      ensures r.Some? <==> forall d :: d in deps ==> d in old(jobs)
      ensures r.Some? ==> r.value == fresh_id && jobs == old(jobs)[fresh_id := NewJob(jobType, deps)]
      ensures r.None? ==> jobs == old(jobs)
    {
      EnqueueInKeeps(Value(), fresh_id, jobType, deps);
      if exists d :: d in deps && d !in jobs {
        return None;
      }
      jobs := jobs[fresh_id := NewJob(jobType, deps)];
      MaybeEnqueue(fresh_id);
      return Some(fresh_id);
    }

    /**
     Hand out a job of one of the given types, or report that none can run now.
     The original blocks in that case; `None` is returned only when no job of
     these types is ready, so a worker never waits while there is work for it.
     */
    method Dequeue(jobTypes: set<string>) returns (r: Option<Id>, ghost received: seq<string>)
      requires Valid()
      modifies this
      ensures Valid() && Value() == ReceiveAllIn(old(Value()), received)
      ensures forall t :: t in received ==> t in jobTypes
      ensures r.None? ==> jobs == old(jobs) && forall id :: Ready(jobs, id) ==> jobs[id].jobType !in jobTypes
      ensures r.Some? ==>
        && r.value in old(jobs) && old(jobs)[r.value].jobType in jobTypes
        && DepsFinished(old(jobs), old(jobs)[r.value].deps) && !old(jobs)[r.value].canceled
        && (Unrepeated(old(jobs)[r.value].deps) ==> Ready(old(jobs), r.value))
        && jobs == Start(old(jobs), r.value)
    {
      received := [];
      var types := jobTypes;
      while types != {}
        invariant Valid() && jobs == old(jobs) && types <= jobTypes
        invariant Value() == ReceiveAllIn(old(Value()), received) && forall t :: t in received ==> t in jobTypes
        invariant forall t :: t in jobTypes && t !in types ==> Channel(pending, t) == []
        decreases types
      {
        // the original's choice among the channels is random
        var t :| t in types;
        while Channel(pending, t) != []
          invariant Valid() && jobs == old(jobs)
          invariant Value() == ReceiveAllIn(old(Value()), received) && forall u :: u in received ==> u in jobTypes
          invariant forall u :: u in jobTypes && u !in types ==> Channel(pending, u) == []
          decreases |Channel(pending, t)|
        {
          var id := pending[t][0];
          HeadKnown(Value(), t);
          ReceiveInKeeps(Value(), t);
          ghost var before := Value();
          assert (received + [t])[..|received|] == received;
          received := received + [t];
          pending := pending[t := pending[t][1..]];
          if !jobs[id].canceled {
            HeadReady(before, t);
            jobs := Start(jobs, id);
            return Some(id), received;
          }
        }
        types := types - {t};
      }
      forall id | Ready(jobs, id) ensures jobs[id].jobType !in jobTypes {
        assert Placed(jobs, pending, dependants, jobs.Keys, id);
      }
      return None, received;
    }

    method FinishJob(id: Id, result: R) returns (r: Option<QueueError>)
      requires Valid()
      modifies this
      ensures Valid() && Value() == FinishIn(old(Value()), id, result)
      ensures r == if id !in old(jobs) then Some(ErrNotExist)
                   else if old(jobs)[id].canceled then Some(ErrCanceled)
                   else if !old(jobs)[id].started || old(jobs)[id].finished then Some(ErrNotRunning)
                   else None
      ensures r.None? ==> jobs == old(jobs)[id := old(jobs)[id].(finished := true, result := Some(result))]
      ensures r.Some? ==> Value() == old(Value())
    {
      FinishInKeeps(Value(), id, result);
      if id !in jobs {
        return Some(ErrNotExist);
      }
      if jobs[id].canceled {
        return Some(ErrCanceled);
      }
      if !jobs[id].started || jobs[id].finished {
        return Some(ErrNotRunning);
      }
      jobs := jobs[id := jobs[id].(finished := true, result := Some(result))];
      Wake(id);
      return None;
    }

    method CancelJob(id: Id) returns (r: Option<QueueError>)
      requires Valid()
      modifies this`jobs
      ensures Valid() && Value() == CancelIn(old(Value()), id)
      ensures r == if id !in old(jobs) then Some(ErrNotExist)
                   else if old(jobs)[id].finished then Some(ErrNotRunning)
                   else None
      ensures r.None? ==> jobs == old(jobs)[id := old(jobs)[id].(canceled := true)]
      ensures r.Some? ==> Value() == old(Value())
    {
      CancelInKeeps(Value(), id);
      if id !in jobs {
        return Some(ErrNotExist);
      }
      if jobs[id].finished {
        return Some(ErrNotRunning);
      }
      jobs := jobs[id := jobs[id].(canceled := true)];
      return None;
    }
  }
}
