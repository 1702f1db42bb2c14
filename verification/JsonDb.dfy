/**
 The JSON database of internal/jsondb/db.go over a small file-system model, and
 the store running on it with a crash possible between any two file operations.
 */
module JsonDb {
  /** A file holding the first `written` of the `total` bytes of an encoded document. */
  datatype File<D> = File(doc: D, written: nat, total: nat) {
    predicate Complete() { written == total }
  }

  type Dir<D> = map<string, File<D>>

  datatype ReadResult<D> = Absent | Read(doc: D) | Torn

  function ReadFile<D>(dir: Dir<D>, name: string): ReadResult<D> {
    if name !in dir then Absent
    else if dir[name].Complete() then Read(dir[name].doc)
    else Torn
  }

  /** Where `writeFileAtomically` is. The temporary file exists in every stage. */
  datatype Stage = Created | Writing | Written | Closed

  /** One file operation of a write of `doc` through `tmp` to `name`. */
  datatype Action = Chmod | WriteBytes(n: nat) | EndWrite | Close | Rename | Remove

  predicate CanAct<D(==)>(dir: Dir<D>, tmp: string, stage: Stage, a: Action) {
    tmp in dir &&
    match a
    case Chmod => stage == Created
    case WriteBytes(n) => stage == Writing && dir[tmp].written + n <= dir[tmp].total
    case EndWrite => stage == Writing && dir[tmp].Complete()
    case Close => stage == Written
    case Rename => stage == Closed
    case Remove => true
  }

  function Act<D>(dir: Dir<D>, name: string, tmp: string, a: Action): Dir<D>
    requires tmp in dir
  {
    match a
    case WriteBytes(n) => dir[tmp := dir[tmp].(written := dir[tmp].written + n)]
    case Rename => (dir - {tmp})[name := dir[tmp]]
    case Remove => dir - {tmp}
    case _ => dir
  }

  function NextStage(stage: Stage, a: Action): Stage {
    match a
    case Chmod => Writing
    case EndWrite => Written
    case Close => Closed
    case _ => stage
  }

  /** What holds of the directory while a write is under way. */
  predicate TmpOk<D(==)>(dir: Dir<D>, tmp: string, stage: Stage, doc: D) {
    tmp in dir && dir[tmp].doc == doc && (stage == Written || stage == Closed ==> dir[tmp].Complete())
  }

  /** Every file operation keeps the target readable: unchanged, or the whole new document after the rename. */
  lemma ActIsAtomic<D>(dir: Dir<D>, name: string, tmp: string, stage: Stage, doc: D, a: Action)
    requires TmpOk(dir, tmp, stage, doc) && CanAct(dir, tmp, stage, a) && tmp != name
    ensures ReadFile(Act(dir, name, tmp, a), name) == if a == Rename then Read(doc) else ReadFile(dir, name)
    ensures a != Rename && a != Remove ==> TmpOk(Act(dir, name, tmp, a), tmp, NextStage(stage, a), doc)
  {
  }

  /** Which of the file operations of one write succeed, and how many chunks the encoder gets out. */
  datatype FileCalls = FileCalls(created: bool, chmod: bool, good: nat, closed: bool, renamed: bool, removed: bool) {
    predicate Succeed(chunks: nat) {
      created && chmod && good == chunks && closed && renamed
    }
  }

  class Database<D(==)> {
    var dir: Dir<D>
    /** Every directory the disk has been in, for crashes at any point. */
    ghost var trace: seq<Dir<D>>

    /** The target reads the same in every directory passed through by the method. */
    twostate predicate Untouched(name: string)
      reads this
    {
      && |old(trace)| <= |trace| && trace[..|old(trace)|] == old(trace)
      && forall k :: |old(trace)| <= k < |trace| ==> ReadFile(trace[k], name) == old(ReadFile(dir, name))
    }

    /** Create the temporary file and let the first `good` chunks of the encoder reach it. */
    method Fill(name: string, tmp: string, doc: D, chunks: seq<nat>, good: nat)
      requires tmp !in dir && tmp != name && good <= |chunks|
      modifies this
      ensures dir == old(dir)[tmp := File(doc, Sum(chunks[..good]), Sum(chunks))]
      ensures Untouched(name)
    {
      dir := dir[tmp := File(doc, 0, Sum(chunks))];
      trace := trace + [dir];
      for i := 0 to good
        invariant tmp in dir && dir == old(dir)[tmp := File(doc, Sum(chunks[..i]), Sum(chunks))]
        invariant Untouched(name)
      {
        assert chunks[..i + 1][..i] == chunks[..i];
        dir := Act(dir, name, tmp, WriteBytes(chunks[i]));
        trace := trace + [dir];
      }
    }

    constructor (dir: Dir<D>)
      ensures this.dir == dir && trace == [dir]
    {
      this.dir, trace := dir, [dir];
    }

    /** `writeFileAtomically`; `chunks` are the sizes of the writes of the whole encoded document. */
    method WriteAtomically(name: string, tmp: string, doc: D, chunks: seq<nat>, calls: FileCalls) returns (err: bool)
      requires tmp !in dir && tmp != name && calls.good <= |chunks|
      modifies this
      ensures err <==> !calls.Succeed(|chunks|)
      ensures err ==> Untouched(name) && ReadFile(dir, name) == old(ReadFile(dir, name))
      ensures !err ==> dir == old(dir)[name := File(doc, Sum(chunks), Sum(chunks))] && Renamed(name)
    {
      if !calls.created {
        return true;
      }
      Fill(name, tmp, doc, chunks, if calls.chmod then calls.good else 0);
      if !calls.chmod || calls.good < |chunks| || !calls.closed || !calls.renamed {
        CleanUp(name, tmp, calls.removed);
        return true;
      }
      assert chunks[..calls.good] == chunks;
      dir := Act(dir, name, tmp, Rename);
      trace := trace + [dir];
      assert trace[..|trace| - 1][..|old(trace)|] == old(trace);
      return false;
    }

    /** All directories passed through read as before, except the last one, which is the current one. */
    twostate predicate Renamed(name: string)
      reads this
    {
      && |old(trace)| < |trace| && trace[..|old(trace)|] == old(trace) && trace[|trace| - 1] == dir
      && forall k :: |old(trace)| <= k < |trace| - 1 ==> ReadFile(trace[k], name) == old(ReadFile(dir, name))
    }

    method CleanUp(name: string, tmp: string, removed: bool)
      requires tmp in dir && tmp != name
      modifies this
      ensures dir == if removed then old(dir) - {tmp} else old(dir)
      ensures trace == old(trace) + [dir]
    {
      if removed {
        dir := dir - {tmp};
      }
      trace := trace + [dir];
    }
  }

  function Sum(chunks: seq<nat>): nat {
    if chunks == [] then 0 else Sum(chunks[..|chunks| - 1]) + chunks[|chunks| - 1]
  }
}

/** The store on disk: changes, crashes at any point of a write, and restarts. */
module StoreDisk {
  import opened JobQueue
  import opened Store
  import opened StoreV0
  import opened JsonDb

  const STATE_FILE := "state.json"

  /** `Saving` is a change whose function has run on `before` and whose document is being written. */
  datatype Phase =
    | Idle
    | Saving(before: State, tmp: string, stage: Stage)
    | Dead

  /**
   `saved` remembers the store whose document is on disk, and `behind` that a failed
   write has left the disk behind the memory of a process that lives on.
   */
  datatype System = System(mem: State, dir: Dir<Document>, phase: Phase, saved: State, behind: bool)

  /** A new machine: no state file, an empty store. */
  const FIRST := System(EMPTY, map[], Idle, EMPTY, false)

  datatype Event =
    | Begin(op: Op, tmp: string, total: nat)
    | NoTemp(op: Op)
    | DoFile(a: Action)
    | Abort(removed: bool)
    | Crash
    | Restart(loaded: State)

  /** Image types given to the store come from the host's own list. */
  predicate OwnTypes(h: Host, op: Op) {
    op.PushCompose? || op.PushTestCompose? ==> h.Own(op.image.imageType)
  }

  function OnDisk(dir: Dir<Document>): Document {
    if ReadFile(dir, STATE_FILE).Read? then ReadFile(dir, STATE_FILE).doc else ZERO_DOCUMENT
  }

  /** A change the store can be asked for. A compose id in use panics before anything is changed. */
  predicate CanRun(v: SemVer, h: Host, s: State, op: Op) {
    StoreHistory.Fresh(s, op) && OwnTypes(h, op) && Run(v, s, op).1 != AlreadyExists
  }

  /**
   The steps of the system. `Begin` runs a change up to the created temporary file, and
   `NoTemp` one whose temporary file cannot be created. `Abort` is any failed file operation
   with its attempt to remove the temporary file. After a failure `change` panics, and the
   HTTP server may recover: memory keeps the change, the disk does not have it. `Crash` may
   come at any time; `Restart` loads whatever is on disk.
   */
  ghost predicate Next(v: SemVer, h: Host, s: System, e: Event, s': System) {
    match e
    case Begin(op, tmp, total) =>
      && s.phase == Idle && CanRun(v, h, s.mem, op) && tmp !in s.dir && tmp != STATE_FILE
      && var after := Run(v, s.mem, op).0;
         && AllMapped(h, after)
         && s' == s.(mem := after, dir := s.dir[tmp := File(Save(h, after), 0, total)], phase := Saving(s.mem, tmp, Created))
    case NoTemp(op) =>
      && s.phase == Idle && CanRun(v, h, s.mem, op)
      && s' == s.(mem := Run(v, s.mem, op).0, behind := true)
    case DoFile(a) =>
      && s.phase.Saving? && a != Remove && CanAct(s.dir, s.phase.tmp, s.phase.stage, a)
      && var dir := Act(s.dir, STATE_FILE, s.phase.tmp, a);
         s' == if a == Rename then System(s.mem, dir, Idle, s.mem, false)
               else s.(dir := dir, phase := s.phase.(stage := NextStage(s.phase.stage, a)))
    case Abort(removed) =>
      && s.phase.Saving? && s.phase.tmp in s.dir
      && s' == s.(dir := if removed then Act(s.dir, STATE_FILE, s.phase.tmp, Remove) else s.dir, phase := Idle, behind := true)
    case Crash =>
      s' == s.(phase := Dead)
    case Restart(loaded) =>
      && s.phase == Dead && ReadFile(s.dir, STATE_FILE) != Torn
      && LoadsTo(h, OnDisk(s.dir), loaded)
      && s' == s.(mem := loaded, phase := Idle, behind := false)
  }

  /** A behaviour: a list of systems connected by events, from the new machine. */
  ghost predicate Behaviour(v: SemVer, h: Host, run: seq<System>, events: seq<Event>) {
    && |run| == |events| + 1 && run[0] == FIRST
    && forall k :: 0 <= k < |events| ==> Next(v, h, run[k], events[k], run[k + 1])
  }

  /** The disk holds one complete document, which loads as the normalised `s` and as nothing else. */
  ghost predicate Holds(h: Host, dir: Dir<Document>, s: State) {
    && ReadFile(dir, STATE_FILE) != Torn
    && LoadsTo(h, OnDisk(dir), Normalise(s))
    && (forall t :: LoadsTo(h, OnDisk(dir), t) ==> t == Normalise(s))
  }

  ghost predicate MemOk(h: Host, s: State) {
    StoreHistory.Inv(s) && AllOwn(h, s)
  }

  ghost predicate Inv(h: Host, s: System) {
    && MemOk(h, s.mem) && MemOk(h, s.saved) && Holds(h, s.dir, s.saved)
    && (s.phase.Saving? ==>
          && s.phase.tmp != STATE_FILE && AllMapped(h, s.mem)
          && TmpOk(s.dir, s.phase.tmp, s.phase.stage, Save(h, s.mem)))
    && (!s.behind ==>
          match s.phase
          case Idle => Normalise(s.mem) == Normalise(s.saved)
          case Saving(before, _, _) => Normalise(before) == Normalise(s.saved)
          case Dead => true)
  }

  /** A completely written document loads as the normalised store, and as nothing else. */
  lemma SavedHolds(h: Host, dir: Dir<Document>, s: State)
    requires h.Injective() && MemOk(h, s) && AllMapped(h, s)
    requires ReadFile(dir, STATE_FILE) == Read(Save(h, s))
    ensures Holds(h, dir, s)
  {
    NormalisedIsLoaded(h, s);
    forall t | LoadsTo(h, OnDisk(dir), t) ensures t == Normalise(s) {
      LoadAfterSave(h, s, t);
    }
  }

  lemma FirstHolds(h: Host)
    ensures Inv(h, FIRST)
  {
    StoreHistory.EmptyIsOk();
    assert Normalise(EMPTY) == EMPTY;
    var d := ZERO_DOCUMENT;
    assert OnDisk(map[]) == d;
    forall t | LoadsTo(h, d, t) ensures t == EMPTY {
      assert t.composes == map[] && t.changes == map[] && t.commits == map[];
    }
    assert LoadsTo(h, d, EMPTY);
  }

  lemma RunKeepsMem(v: SemVer, h: Host, s: State, op: Op)
    requires MemOk(h, s) && StoreHistory.Fresh(s, op) && OwnTypes(h, op)
    ensures MemOk(h, Run(v, s, op).0) && AllMapped(h, Run(v, s, op).0)
  {
    StoreHistory.RunKeepsInv(v, s, op);
    RunKeepsOwn(v, h, s, op);
    OwnIsMapped(h, Run(v, s, op).0);
  }

  lemma RunKeepsOwn(v: SemVer, h: Host, s: State, op: Op)
    requires AllOwn(h, s) && OwnTypes(h, op)
    ensures AllOwn(h, Run(v, s, op).0)
  {
    var composes := Run(v, s, op).0.composes;
    forall id | id in composes ensures h.Own(composes[id].image.imageType) {
      RunCompose(v, s, op, id);
    }
  }

  /** A compose after an operation was there before, or has the image type it was pushed with. */
  lemma RunCompose(v: SemVer, s: State, op: Op, id: Id)
    requires id in Run(v, s, op).0.composes
    ensures var c := Run(v, s, op).0.composes[id];
            || (id in s.composes && c == s.composes[id])
            || ((op.PushCompose? || op.PushTestCompose?) && c.image.imageType == op.image.imageType)
  {
  }

  lemma OwnIsMapped(h: Host, s: State)
    requires AllOwn(h, s)
    ensures AllMapped(h, s)
  {
  }

  lemma NormaliseKeepsMem(h: Host, s: State)
    requires MemOk(h, s)
    ensures MemOk(h, Normalise(s))
  {
    NormaliseKeepsHistory(s);
  }

  lemma HoldsSameFile(h: Host, dir: Dir<Document>, dir': Dir<Document>, s: State)
    requires Holds(h, dir, s) && ReadFile(dir', STATE_FILE) == ReadFile(dir, STATE_FILE)
    ensures Holds(h, dir', s)
  {
    assert OnDisk(dir') == OnDisk(dir);
  }

  /** The state file is touched by nothing but a rename. */
  lemma NextKeepsFile(v: SemVer, h: Host, s: System, e: Event, s': System)
    requires h.Injective() && Inv(h, s) && Next(v, h, s, e, s') && e != DoFile(Rename)
    ensures ReadFile(s'.dir, STATE_FILE) == ReadFile(s.dir, STATE_FILE) && s'.saved == s.saved
  {
    if e.DoFile? {
      ActIsAtomic(s.dir, STATE_FILE, s.phase.tmp, s.phase.stage, Save(h, s.mem), e.a);
    }
  }

  lemma NextKeepsInv(v: SemVer, h: Host, s: System, e: Event, s': System)
    requires h.Injective() && Inv(h, s) && Next(v, h, s, e, s')
    ensures Inv(h, s')
  {
    if e == DoFile(Rename) {
      ActIsAtomic(s.dir, STATE_FILE, s.phase.tmp, s.phase.stage, Save(h, s.mem), Rename);
      SavedHolds(h, s'.dir, s.mem);
    } else {
      NextKeepsFile(v, h, s, e, s');
      HoldsSameFile(h, s.dir, s'.dir, s.saved);
      match e
      case Begin(op, tmp, total) =>
        RunKeepsMem(v, h, s.mem, op);
      case NoTemp(op) =>
        RunKeepsMem(v, h, s.mem, op);
      case DoFile(a) =>
        ActIsAtomic(s.dir, STATE_FILE, s.phase.tmp, s.phase.stage, Save(h, s.mem), a);
      case Restart(loaded) =>
        assert loaded == Normalise(s.saved);
        NormaliseKeepsMem(h, s.saved);
        NormaliseIdempotent(s.saved);
      case _ =>
    }
  }

  lemma {:induction false} BehaviourInv(v: SemVer, h: Host, run: seq<System>, events: seq<Event>, k: nat)
    requires h.Injective() && Behaviour(v, h, run, events) && k < |run|
    ensures Inv(h, run[k])
  {
    if k == 0 {
      FirstHolds(h);
    } else {
      BehaviourInv(v, h, run, events, k - 1);
      assert Next(v, h, run[k - 1], events[k - 1], run[k]);
      NextKeepsInv(v, h, run[k - 1], events[k - 1], run[k]);
    }
  }

  /**
   At every moment of every behaviour the state file is not torn, and loading it gives the
   store saved last, normalised. Unless an earlier write failed, that is the current store
   when no change is under way, and the store before the change while one is.
   */
  lemma CrashSafe(v: SemVer, h: Host, run: seq<System>, events: seq<Event>, k: nat, t: State)
    requires h.Injective() && Behaviour(v, h, run, events) && k < |run|
    ensures ReadFile(run[k].dir, STATE_FILE) != Torn
    ensures LoadsTo(h, OnDisk(run[k].dir), t) <==> t == Normalise(run[k].saved)
    ensures !run[k].behind && run[k].phase == Idle ==> Normalise(run[k].saved) == Normalise(run[k].mem)
    ensures !run[k].behind && run[k].phase.Saving? ==> Normalise(run[k].saved) == Normalise(run[k].phase.before)
  {
    BehaviourInv(v, h, run, events, k);
  }

  /** A crash at any point and the restart after it, seen as two steps of a behaviour. */
  lemma RestartAfterCrash(v: SemVer, h: Host, run: seq<System>, events: seq<Event>, k: nat)
    requires h.Injective() && Behaviour(v, h, run, events) && k + 1 < |events|
    requires !run[k].phase.Dead? && events[k] == Crash && events[k + 1].Restart?
    ensures run[k + 2].mem == Normalise(run[k].saved)
    ensures !run[k].behind ==>
              run[k + 2].mem == Normalise(if run[k].phase.Saving? then run[k].phase.before else run[k].mem)
  {
    assert Next(v, h, run[k], events[k], run[k + 1]);
    assert Next(v, h, run[k + 1], events[k + 1], run[k + 2]);
    CrashSafe(v, h, run, events, k, events[k + 1].loaded);
  }

  /** A finished write leaves the complete document of the store after the change on disk. */
  lemma RenameCommits(v: SemVer, h: Host, run: seq<System>, events: seq<Event>, k: nat)
    requires h.Injective() && Behaviour(v, h, run, events) && k < |events| && events[k] == DoFile(Rename)
    ensures AllMapped(h, run[k].mem) && ReadFile(run[k + 1].dir, STATE_FILE) == Read(Save(h, run[k].mem))
    ensures run[k + 1].mem == run[k].mem == run[k + 1].saved && !run[k + 1].behind
  {
    BehaviourInv(v, h, run, events, k);
    assert Next(v, h, run[k], events[k], run[k + 1]);
    var s := run[k];
    ActIsAtomic(s.dir, STATE_FILE, s.phase.tmp, s.phase.stage, Save(h, s.mem), Rename);
  }

  /** Nothing else changes what the state file reads as. */
  lemma OnlyRenameChangesDisk(v: SemVer, h: Host, run: seq<System>, events: seq<Event>, k: nat)
    requires h.Injective() && Behaviour(v, h, run, events) && k < |events| && events[k] != DoFile(Rename)
    ensures ReadFile(run[k + 1].dir, STATE_FILE) == ReadFile(run[k].dir, STATE_FILE)
    ensures run[k + 1].saved == run[k].saved
  {
    BehaviourInv(v, h, run, events, k);
    assert Next(v, h, run[k], events[k], run[k + 1]);
    NextKeepsFile(v, h, run[k], events[k], run[k + 1]);
  }

  /** Across failed writes, crashes and restarts, memory always satisfies the history facts. */
  lemma HistoryAcrossRestarts(v: SemVer, h: Host, run: seq<System>, events: seq<Event>, k: nat)
    requires h.Injective() && Behaviour(v, h, run, events) && k < |run|
    ensures StoreHistory.Inv(run[k].mem)
  {
    BehaviourInv(v, h, run, events, k);
  }

  // ----- behaviours that write, and behaviours that fail to -----

  lemma Grow(v: SemVer, h: Host, run: seq<System>, events: seq<Event>, e: Event, s': System)
    requires Behaviour(v, h, run, events) && Next(v, h, run[|events|], e, s')
    ensures Behaviour(v, h, run + [s'], events + [e])
  {
    var run', events' := run + [s'], events + [e];
    forall k | 0 <= k < |events'| ensures Next(v, h, run'[k], events'[k], run'[k + 1]) {
      if k < |events| {
        assert Next(v, h, run[k], events[k], run[k + 1]);
      }
    }
  }

  /** The last system of a behaviour. */
  function Last(run: seq<System>): System
    requires run != []
  {
    run[|run| - 1]
  }

  /** The system once the function of a change has run and the temporary file exists. */
  ghost function Begun(v: SemVer, h: Host, s: System, op: Op, tmp: string, total: nat): System
    requires AllMapped(h, Run(v, s.mem, op).0)
  {
    var after := Run(v, s.mem, op).0;
    s.(mem := after, dir := s.dir[tmp := File(Save(h, after), 0, total)], phase := Saving(s.mem, tmp, Created))
  }

  lemma BeginHappens(v: SemVer, h: Host, run: seq<System>, events: seq<Event>, op: Op, tmp: string, total: nat)
    requires h.Injective() && Behaviour(v, h, run, events) && Last(run).phase == Idle && CanRun(v, h, Last(run).mem, op)
    requires tmp !in Last(run).dir && tmp != STATE_FILE
    ensures AllMapped(h, Run(v, Last(run).mem, op).0)
    ensures Behaviour(v, h, run + [Begun(v, h, Last(run), op, tmp, total)], events + [Begin(op, tmp, total)])
  {
    BehaviourInv(v, h, run, events, |events|);
    RunKeepsMem(v, h, Last(run).mem, op);
    Grow(v, h, run, events, Begin(op, tmp, total), Begun(v, h, Last(run), op, tmp, total));
  }

  /** From any state at rest, any change can be written down completely; then disk and memory agree. */
  lemma WriteHappens(v: SemVer, h: Host, run: seq<System>, events: seq<Event>, op: Op, tmp: string, total: nat)
    returns (run': seq<System>, events': seq<Event>)
    requires h.Injective() && Behaviour(v, h, run, events) && Last(run).phase == Idle && CanRun(v, h, Last(run).mem, op)
    requires tmp !in Last(run).dir && tmp != STATE_FILE
    ensures Behaviour(v, h, run', events') && run <= run' && events <= events'
    ensures Last(run').mem == Run(v, Last(run).mem, op).0 == Last(run').saved
    ensures Last(run').phase == Idle && !Last(run').behind
  {
    BeginHappens(v, h, run, events, op, tmp, total);
    var s := Begun(v, h, Last(run), op, tmp, total);
    run', events' := run + [s], events + [Begin(op, tmp, total)];
    var actions := [Chmod, WriteBytes(total), EndWrite, Close];
    var stages := [Created, Writing, Writing, Written, Closed];
    for n := 0 to 4
      invariant Behaviour(v, h, run', events') && run <= run' && events <= events'
      invariant Last(run') == s.(dir := Last(run').dir, phase := Saving(s.phase.before, tmp, stages[n]))
      invariant tmp in Last(run').dir && Last(run').dir[tmp] == File(Save(h, s.mem), if n <= 1 then 0 else total, total)
    {
      var now := Last(run');
      var next := now.(dir := Act(now.dir, STATE_FILE, tmp, actions[n]), phase := now.phase.(stage := stages[n + 1]));
      Grow(v, h, run', events', DoFile(actions[n]), next);
      run', events' := run' + [next], events' + [DoFile(actions[n])];
    }
    var now := Last(run');
    var done := System(now.mem, Act(now.dir, STATE_FILE, tmp, Rename), Idle, now.mem, false);
    Grow(v, h, run', events', DoFile(Rename), done);
    run', events' := run' + [done], events' + [DoFile(Rename)];
  }

  /** From any state at rest, any change may fail to be written; then the process lives on with it and the disk has not got it. */
  lemma FailedWriteHappens(v: SemVer, h: Host, run: seq<System>, events: seq<Event>, op: Op, tmp: string)
    returns (run': seq<System>, events': seq<Event>)
    requires h.Injective() && Behaviour(v, h, run, events) && Last(run).phase == Idle && CanRun(v, h, Last(run).mem, op)
    requires tmp !in Last(run).dir && tmp != STATE_FILE
    ensures Behaviour(v, h, run', events') && run <= run' && events <= events'
    ensures Last(run').mem == Run(v, Last(run).mem, op).0 && Last(run').saved == Last(run).saved
    ensures Last(run').phase == Idle && Last(run').behind
  {
    BeginHappens(v, h, run, events, op, tmp, 0);
    var s := Begun(v, h, Last(run), op, tmp, 0);
    run', events' := run + [s], events + [Begin(op, tmp, 0)];
    var failed := s.(dir := Act(s.dir, STATE_FILE, tmp, Remove), phase := Idle, behind := true);
    Grow(v, h, run', events', Abort(true), failed);
    run', events' := run' + [failed], events' + [Abort(true)];
  }

  /** A source that the process serves after a failed write, and that is gone once it has crashed and restarted. */
  lemma FailedWriteLosesChange(v: SemVer, h: Host, key: string, source: Source)
    returns (run: seq<System>, events: seq<Event>, k: nat)
    requires h.Injective()
    ensures Behaviour(v, h, run, events) && k < |run|
    ensures run[k].phase == Idle && key in run[k].mem.sources
    ensures Last(run).phase == Idle && key !in Last(run).mem.sources
  {
    assert Behaviour(v, h, [FIRST], []);
    run, events := FailedWriteHappens(v, h, [FIRST], [], PushSource(key, source), "state.json-1.tmp");
    k := |events|;
    var dead := Last(run).(phase := Dead);
    assert Last(run).saved == EMPTY;
    CrashSafe(v, h, run, events, k, EMPTY);
    assert Normalise(EMPTY) == EMPTY;
    Grow(v, h, run, events, Crash, dead);
    run, events := run + [dead], events + [Crash];
    var again := dead.(mem := EMPTY, phase := Idle, behind := false);
    Grow(v, h, run, events, Restart(EMPTY), again);
    run, events := run + [again], events + [Restart(EMPTY)];
  }

  // ----- when the disk is behind -----

  /** Event `j` is a failed write, and nothing up to moment `k` has brought the disk back to the memory. */
  predicate FailedSince(events: seq<Event>, j: int, k: int) {
    && 0 <= j < k <= |events| && (events[j].NoTemp? || events[j].Abort?)
    && forall i :: j < i < k ==> events[i] != DoFile(Rename) && !events[i].Restart?
  }

  /** The disk is behind exactly from a failed write to the next completed write or restart. */
  lemma {:induction false} BehindExactly(v: SemVer, h: Host, run: seq<System>, events: seq<Event>, k: nat)
    requires Behaviour(v, h, run, events) && k < |run|
    ensures run[k].behind <==> exists j :: FailedSince(events, j, k)
  {
    if k > 0 {
      BehindExactly(v, h, run, events, k - 1);
      assert Next(v, h, run[k - 1], events[k - 1], run[k]);
      var e := events[k - 1];
      if e.NoTemp? || e.Abort? {
        assert FailedSince(events, k - 1, k);
      } else if run[k].behind {
        var j :| FailedSince(events, j, k - 1);
        assert FailedSince(events, j, k);
      }
      if j :| FailedSince(events, j, k) {
        assert j < k - 1 ==> FailedSince(events, j, k - 1);
      }
    }
  }
}

/** A store with its database: `change` runs an operation and writes the document (internal/store/store.go). */
module PersistentStore {
  import opened JsonDb
  import opened Store
  import opened StoreV0
  import opened StoreDisk

  class Persistent {
    const store: Store
    const db: Database<Document>
    const host: Host

    constructor (store: Store, db: Database<Document>, host: Host)
      ensures this.store == store && this.db == db && this.host == host
    {
      this.store, this.db, this.host := store, db, host;
    }

    /** The function given to `change`. */
    method Operate(op: Op) returns (e: Error)
      modifies store
      ensures (store.Value(), e) == Run(store.semver, old(store.Value()), op)
    {
      match op
      case PushBlueprint(bp, message, commit, time) => e := store.Push(bp, message, commit, time);
      case PushToWorkspace(bp) => e := store.Workspace(bp);
      case DeleteBlueprint(name) => e := store.Delete(name);
      case DeleteFromWorkspace(name) => e := store.DeleteWorkspace(name);
      case TagBlueprint(name) => e := store.Tag(name);
      case PushCompose(id, bp, image, packages) => e := store.NewComposeEntry(id, bp, image, packages);
      case PushTestCompose(id, bp, image, success, packages) => e := store.NewTestComposeEntry(id, bp, image, success, packages);
      case DeleteCompose(id) => e := store.RemoveCompose(id);
      case PushSource(key, source) => e := store.NewSource(key, source);
      case DeleteSource(key) => e := store.RemoveSource(key);
    }

    /**
     `change`. Whatever the operation answers, the store is written afterwards; a failed write
     panics. Memory has the change in any case, and the state file is either the complete new
     document or reads as before in every directory passed through.
     */
    method Change(op: Op, tmp: string, chunks: seq<nat>, calls: FileCalls) returns (e: Error, panicked: bool)
      requires AllOwn(host, store.Value()) && CanRun(store.semver, host, store.Value(), op)
      requires tmp !in db.dir && tmp != STATE_FILE && calls.good <= |chunks|
      modifies store, db
      ensures (store.Value(), e) == Run(store.semver, old(store.Value()), op)
      ensures AllOwn(host, store.Value()) && AllMapped(host, store.Value())
      ensures panicked <==> !calls.Succeed(|chunks|)
      ensures panicked ==> db.Untouched(STATE_FILE) && ReadFile(db.dir, STATE_FILE) == old(ReadFile(db.dir, STATE_FILE))
      ensures !panicked ==> db.Renamed(STATE_FILE) && ReadFile(db.dir, STATE_FILE) == Read(Save(host, store.Value()))
    {
      RunKeepsOwn(store.semver, host, store.Value(), op);
      e := Operate(op);
      OwnIsMapped(host, store.Value());
      panicked := db.WriteAtomically(STATE_FILE, tmp, Save(host, store.Value()), chunks, calls);
    }
  }
}
