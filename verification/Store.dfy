/**
 The store of internal/store/store.go: blueprints, workspace, history and
 composes. `Run` gives every operation as a function on the whole state; the
 class below works in place and is proved against it.
 */
module Store {
  import opened Wrappers
  import opened JobQueue

  /** `content` stands for the fields no operation of the store looks at. */
  datatype Blueprint = Blueprint(name: string, version: string, content: string)

  datatype Change = Change(commit: string, message: string, revision: Option<int>, timestamp: string, blueprint: Blueprint)

  const ZERO_BLUEPRINT := Blueprint("", "", "")
  const ZERO_CHANGE := Change("", "", None, "", ZERO_BLUEPRINT)

  datatype ImageType = ImageType(arch: string, name: string)

  datatype QueueStatus = Waiting | Running | Finished | Failed

  const NIL_ID: Id := 0

  datatype ImageBuild = ImageBuild(
    id: int, imageType: ImageType, manifest: string, targets: seq<string>,
    jobCreated: int, jobStarted: int, jobFinished: int, size: nat, jobID: Id, queueStatus: QueueStatus)

  datatype Compose = Compose(blueprint: Option<Blueprint>, image: ImageBuild, packages: seq<string>)

  datatype Source = Source(name: string, content: string)

  datatype State = State(
    blueprints: map<string, Blueprint>,
    workspace: map<string, Blueprint>,
    composes: map<Id, Compose>,
    sources: map<string, Source>,
    changes: map<string, map<string, Change>>,
    commits: map<string, seq<string>>)

  const EMPTY := State(map[], map[], map[], map[], map[], map[])

  /** The semantic-version library: which strings it accepts and how it bumps one. */
  datatype SemVer = SemVer(valid: string -> bool, bump: string -> string)

  datatype Op =
    | PushBlueprint(bp: Blueprint, message: string, commit: Option<string>, time: string)
    | PushToWorkspace(bp: Blueprint)
    | DeleteBlueprint(name: string)
    | DeleteFromWorkspace(name: string)
    | TagBlueprint(name: string)
    | PushCompose(id: Id, bpOpt: Option<Blueprint>, image: ImageBuild, packages: seq<string>)
    | PushTestCompose(id: Id, bpOpt: Option<Blueprint>, image: ImageBuild, success: bool, packages: seq<string>)
    | DeleteCompose(id: Id)
    | PushSource(key: string, source: Source)
    | DeleteSource(key: string)

  datatype Error = NoError | RandError | InvalidVersion | UnknownBlueprint | NoCommits | NotFound | AlreadyExists

  // ----- lookups that fall back to Go's zero values -----

  function Commits(s: State, name: string): seq<string> {
    if name in s.commits then s.commits[name] else []
  }

  function Changes(s: State, name: string): map<string, Change> {
    if name in s.changes then s.changes[name] else map[]
  }

  function ChangeAt(changes: map<string, Change>, commit: string): Change {
    if commit in changes then changes[commit] else ZERO_CHANGE
  }

  // ----- the operations -----

  function Initialized(bp: Blueprint): Blueprint {
    if bp.version == "" then bp.(version := "0.0.0") else bp
  }

  function Push(v: SemVer, s: State, bp0: Blueprint, message: string, commit: string, time: string): State {
    var bp := Initialized(bp0);
    var change := Change(commit, message, None, time, bp);
    var stored :=
      if bp.name in s.blueprints && bp.version == s.blueprints[bp.name].version && v.valid(s.blueprints[bp.name].version)
      then bp.(version := v.bump(s.blueprints[bp.name].version)) else bp;
    s.(workspace := s.workspace - {bp.name},
       changes := s.changes[bp.name := Changes(s, bp.name)[commit := change]],
       commits := s.commits[bp.name := Commits(s, bp.name) + [commit]],
       blueprints := s.blueprints[bp.name := stored])
  }

  predicate Tagged(change: Change) {
    change.revision.Some? && change.revision.value > 0
  }

  /** The change the backward loop of `TagBlueprint` holds when it stops, started at index `i`. */
  function LastVisited(list: seq<string>, changes: map<string, Change>, i: nat): Change
    requires i < |list|
  {
    var change := ChangeAt(changes, list[i]);
    if Tagged(change) || i == 0 then change else LastVisited(list, changes, i - 1)
  }

  function Tag(s: State, name: string): (State, Error) {
    var list, changes := Commits(s, name), Changes(s, name);
    if name !in s.blueprints then (s, UnknownBlueprint)
    else if list == [] then (s, NoCommits)
    else
      var latest := list[|list| - 1];
      if ChangeAt(changes, latest).revision.Some? then (s, NoError)
      else
        var change := LastVisited(list, changes, |list| - 1);
        var revision := if Tagged(change) then change.revision.value else 0;
        (s.(changes := s.changes[name := changes[latest := change.(revision := Some(revision + 1))]]), NoError)
  }

  function NewCompose(bp: Option<Blueprint>, image: ImageBuild, packages: seq<string>, status: QueueStatus): Compose {
    Compose(bp, image.(queueStatus := status), packages)
  }

  /** One operation. `AlreadyExists` stands for the panic of `PushCompose`. */
  function Run(v: SemVer, s: State, op: Op): (State, Error) {
    match op
    case PushBlueprint(bp, message, commit, time) =>
      if commit.None? then (s, RandError)
      else if !v.valid(Initialized(bp).version) then (s, InvalidVersion)
      else (Push(v, s, bp, message, commit.value, time), NoError)
    case PushToWorkspace(bp) =>
      if !v.valid(Initialized(bp).version) then (s, InvalidVersion)
      else (s.(workspace := s.workspace[bp.name := Initialized(bp)]), NoError)
    case DeleteBlueprint(name) =>
      var s' := s.(workspace := s.workspace - {name});
      if name !in s.blueprints then (s', UnknownBlueprint)
      else (s'.(blueprints := s.blueprints - {name}), NoError)
    case DeleteFromWorkspace(name) =>
      if name !in s.workspace then (s, UnknownBlueprint)
      else (s.(workspace := s.workspace - {name}), NoError)
    case TagBlueprint(name) => Tag(s, name)
    case PushCompose(id, bp, image, packages) =>
      if id in s.composes then (s, AlreadyExists)
      else (s.(composes := s.composes[id := NewCompose(bp, image, packages, Waiting)]), NoError)
    case PushTestCompose(id, bp, image, success, packages) =>
      (s.(composes := s.composes[id := NewCompose(bp, image.(jobID := NIL_ID), packages, if success then Finished else Failed)]), NoError)
    case DeleteCompose(id) =>
      if id !in s.composes then (s, NotFound)
      else (s.(composes := s.composes - {id}), NoError)
    case PushSource(key, source) =>
      (s.(sources := s.sources[key := source]), NoError)
    case DeleteSource(key) =>
      (s.(sources := s.sources - {key}), NoError)
  }

  class Store {
    const semver: SemVer
    var blueprints: map<string, Blueprint>
    var workspace: map<string, Blueprint>
    var composes: map<Id, Compose>
    var sources: map<string, Source>
    var changes: map<string, map<string, Change>>
    var commits: map<string, seq<string>>

    constructor (semver: SemVer, s: State)
      ensures this.semver == semver && Value() == s
    {
      this.semver := semver;
      blueprints, workspace, composes := s.blueprints, s.workspace, s.composes;
      sources, changes, commits := s.sources, s.changes, s.commits;
    }

    function Value(): State
      reads this
    {
      State(blueprints, workspace, composes, sources, changes, commits)
    }

    method Push(bp0: Blueprint, message: string, commit: Option<string>, time: string) returns (e: Error)
      modifies this
      ensures (Value(), e) == Run(semver, old(Value()), PushBlueprint(bp0, message, commit, time))
    {
      if commit.None? {
        return RandError;
      }
      var bp := Initialized(bp0);
      if !semver.valid(bp.version) {
        return InvalidVersion;
      }
      var change := Change(commit.value, message, None, time, bp);
      workspace := workspace - {bp.name};
      if bp.name !in changes {
        changes := changes[bp.name := map[]];
      }
      changes := changes[bp.name := changes[bp.name][commit.value := change]];
      assert changes == old(changes)[bp.name := Changes(old(Value()), bp.name)[commit.value := change]];
      commits := commits[bp.name := (if bp.name in commits then commits[bp.name] else []) + [commit.value]];
      if bp.name in blueprints {
        var old_version := blueprints[bp.name].version;
        if bp.version == "" || bp.version == old_version {
          if semver.valid(old_version) {
            bp := bp.(version := semver.bump(old_version));
          }
        }
      }
      blueprints := blueprints[bp.name := bp];
      return NoError;
    }

    method Workspace(bp: Blueprint) returns (e: Error)
      modifies this`workspace
      ensures (Value(), e) == Run(semver, old(Value()), PushToWorkspace(bp))
    {
      if !semver.valid(Initialized(bp).version) {
        return InvalidVersion;
      }
      workspace := workspace[bp.name := Initialized(bp)];
      return NoError;
    }

    method Delete(name: string) returns (e: Error)
      modifies this`workspace, this`blueprints
      ensures (Value(), e) == Run(semver, old(Value()), DeleteBlueprint(name))
    {
      workspace := workspace - {name};
      if name !in blueprints {
        return UnknownBlueprint;
      }
      blueprints := blueprints - {name};
      return NoError;
    }

    method DeleteWorkspace(name: string) returns (e: Error)
      modifies this`workspace
      ensures (Value(), e) == Run(semver, old(Value()), DeleteFromWorkspace(name))
    {
      if name !in workspace {
        return UnknownBlueprint;
      }
      workspace := workspace - {name};
      return NoError;
    }

    /** The loop keeps overwriting `change`; whatever it holds at the end is stored. */
    method Tag(name: string) returns (e: Error)
      modifies this`changes
      ensures (Value(), e) == Run(semver, old(Value()), TagBlueprint(name))
    {
      if name !in blueprints {
        return UnknownBlueprint;
      }
      var list := Commits(Value(), name);
      if |list| == 0 {
        return NoCommits;
      }
      var own := Changes(Value(), name);
      var latest := list[|list| - 1];
      if ChangeAt(own, latest).revision.Some? {
        return NoError;
      }
      var revision := 0;
      var change := ZERO_CHANGE;
      var i := |list| - 1;
      while i >= 0
        invariant -1 <= i < |list| && revision == 0
        invariant i >= 0 ==> LastVisited(list, own, |list| - 1) == LastVisited(list, own, i)
        invariant i < 0 ==> change == LastVisited(list, own, |list| - 1) && !Tagged(change)
      {
        change := ChangeAt(own, list[i]);
        if change.revision.Some? && change.revision.value > revision {
          revision := change.revision.value;
          break;
        }
        i := i - 1;
      }
      revision := revision + 1;
      changes := changes[name := own[latest := change.(revision := Some(revision))]];
      return NoError;
    }

    method NewComposeEntry(id: Id, bp: Option<Blueprint>, image: ImageBuild, packages: seq<string>) returns (e: Error)
      modifies this`composes
      ensures (Value(), e) == Run(semver, old(Value()), PushCompose(id, bp, image, packages))
    {
      if id in composes {
        return AlreadyExists;
      }
      composes := composes[id := NewCompose(bp, image, packages, Waiting)];
      return NoError;
    }

    method NewTestComposeEntry(id: Id, bp: Option<Blueprint>, image: ImageBuild, success: bool, packages: seq<string>) returns (e: Error)
      modifies this`composes
      ensures (Value(), e) == Run(semver, old(Value()), PushTestCompose(id, bp, image, success, packages))
    {
      var status := Failed;
      if success {
        status := Finished;
      }
      composes := composes[id := Compose(bp, image.(queueStatus := status, jobID := NIL_ID), packages)];
      return NoError;
    }

    method NewSource(key: string, source: Source) returns (e: Error)
      modifies this`sources
      ensures (Value(), e) == Run(semver, old(Value()), PushSource(key, source))
    {
      sources := sources[key := source];
      return NoError;
    }

    method RemoveSource(key: string) returns (e: Error)
      modifies this`sources
      ensures (Value(), e) == Run(semver, old(Value()), DeleteSource(key))
    {
      sources := sources - {key};
      return NoError;
    }

    method RemoveCompose(id: Id) returns (e: Error)
      modifies this`composes
      ensures (Value(), e) == Run(semver, old(Value()), DeleteCompose(id))
    {
      if id !in composes {
        return NotFound;
      }
      composes := composes - {id};
      return NoError;
    }
  }
}

/** What every run of store operations keeps. */
module StoreHistory {
  import opened Wrappers
  import opened Strings
  import opened JobQueue
  import opened Store

  /** Number of tagged commits among the first `n` of a list. */
  function TagCount(list: seq<string>, changes: map<string, Change>, n: nat): nat
    requires n <= |list|
  {
    if n == 0 then 0
    else TagCount(list, changes, n - 1) + if ChangeAt(changes, list[n - 1]).revision.Some? then 1 else 0
  }

  /**
   The history of one blueprint: a duplicate-free list of exactly the commits that
   have a change, whose tagged members carry the revisions 1, 2, ... in list order.
   The last two clauses track where a change record comes from.
   */
  ghost predicate HistoryOk(list: seq<string>, changes: map<string, Change>) {
    && list != [] && NoDup(list) && ToSet(list) == changes.Keys
    && forall i :: 0 <= i < |list| ==> EntryOk(list, changes, i)
  }

  ghost predicate EntryOk(list: seq<string>, changes: map<string, Change>, i: int)
    requires 0 <= i < |list|
  {
    var change := ChangeAt(changes, list[i]);
    && (change.revision.Some? ==> change.revision.value == TagCount(list, changes, i) + 1)
    && change.commit in list[..i + 1]
    && (change.revision.None? ==> change.commit == list[i])
  }

  ghost predicate Inv(s: State) {
    && s.commits.Keys == s.changes.Keys
    && s.blueprints.Keys <= s.commits.Keys
    && forall name :: name in s.commits ==> HistoryOk(s.commits[name], s.changes[name])
  }

  /** Commit ids are random; a draw is fresh for the blueprint it is used for. */
  predicate Fresh(s: State, op: Op) {
    op.PushBlueprint? && op.commit.Some? ==> op.commit.value !in Changes(s, op.bp.name)
  }

  /** Counts over a common prefix agree when the entries do. */
  lemma {:induction false} TagCountFrame(list: seq<string>, changes: map<string, Change>,
                                         list': seq<string>, changes': map<string, Change>, n: nat)
    requires n <= |list| && n <= |list'|
    requires forall k :: 0 <= k < n ==>
      list[k] == list'[k] && ChangeAt(changes, list[k]).revision == ChangeAt(changes', list[k]).revision
    ensures TagCount(list, changes, n) == TagCount(list', changes', n)
  {
    if n > 0 {
      TagCountFrame(list, changes, list', changes', n - 1);
    }
  }

  lemma PushKeepsHistory(list: seq<string>, changes: map<string, Change>, commit: string, change: Change)
    requires list == [] ==> changes == map[]
    requires list != [] ==> HistoryOk(list, changes)
    requires commit !in changes && change.commit == commit && change.revision == None
    ensures HistoryOk(list + [commit], changes[commit := change])
  {
    var list', changes' := list + [commit], changes[commit := change];
    assert forall x :: x in list ==> x in ToSet(list);
    assert commit !in list;
    assert ToSet(list') == ToSet(list) + {commit};
    forall i | 0 <= i < |list'| ensures EntryOk(list', changes', i) {
      if i < |list| {
        assert EntryOk(list, changes, i);
        assert list'[i] == list[i] && list'[..i + 1] == list[..i + 1];
        TagCountFrame(list, changes, list', changes', i);
      }
    }
  }

  /** The loop of `TagBlueprint` stops at the last tagged commit, or at the oldest one. */
  lemma {:induction false} LastVisitedMeaning(list: seq<string>, changes: map<string, Change>, i: nat)
    requires HistoryOk(list, changes) && i < |list|
    ensures exists j :: 0 <= j <= i && LastVisited(list, changes, i) == ChangeAt(changes, list[j]) &&
                        (j < i || Tagged(ChangeAt(changes, list[i])) || i == 0)
    ensures Tagged(LastVisited(list, changes, i)) ==>
              LastVisited(list, changes, i).revision.value == TagCount(list, changes, i + 1)
    ensures !Tagged(LastVisited(list, changes, i)) ==> TagCount(list, changes, i + 1) == 0
  {
    assert EntryOk(list, changes, i);
    if !Tagged(ChangeAt(changes, list[i])) && i > 0 {
      LastVisitedMeaning(list, changes, i - 1);
    }
  }

  lemma TagKeepsHistory(list: seq<string>, changes: map<string, Change>)
    requires HistoryOk(list, changes) && ChangeAt(changes, list[|list| - 1]).revision.None?
    ensures var visited := LastVisited(list, changes, |list| - 1);
            var revision := if Tagged(visited) then visited.revision.value else 0;
            var changes' := changes[list[|list| - 1] := visited.(revision := Some(revision + 1))];
            && HistoryOk(list, changes')
            && revision == TagCount(list, changes, |list|)
            && (visited.commit == list[|list| - 1] <==> |list| == 1)
  {
    var n := |list| - 1;
    var latest := list[n];
    var visited := LastVisited(list, changes, n);
    var revision := if Tagged(visited) then visited.revision.value else 0;
    var changes' := changes[latest := visited.(revision := Some(revision + 1))];
    LastVisitedMeaning(list, changes, n);
    var j :| 0 <= j <= n && visited == ChangeAt(changes, list[j]) && (j < n || n == 0);
    assert EntryOk(list, changes, j) && EntryOk(list, changes, n);
    assert latest in ToSet(list);
    assert changes'.Keys == changes.Keys;
    forall i | 0 <= i < |list| ensures EntryOk(list, changes', i) {
      TaggedEntryOk(list, changes, i, j, revision);
    }
  }

  /** Filing the record of entry `j` under the newest commit, with the next revision, keeps every entry good. */
  lemma TaggedEntryOk(list: seq<string>, changes: map<string, Change>, i: int, j: int, revision: nat)
    requires NoDup(list) && 0 <= i < |list| && 0 <= j < |list|
    requires EntryOk(list, changes, i) && EntryOk(list, changes, j) && revision == TagCount(list, changes, |list| - 1)
    ensures EntryOk(list, changes[list[|list| - 1] := ChangeAt(changes, list[j]).(revision := Some(revision + 1))], i)
  {
    var latest := list[|list| - 1];
    var changes' := changes[latest := ChangeAt(changes, list[j]).(revision := Some(revision + 1))];
    TagCountFrame(list, changes, list, changes', i);
    if i == |list| - 1 {
      var k :| 0 <= k < j + 1 && list[..j + 1][k] == ChangeAt(changes, list[j]).commit;
      assert list[..i + 1][k] == list[k];
    }
  }

  lemma PushKeepsInv(v: SemVer, s: State, bp: Blueprint, message: string, commit: string, time: string)
    requires Inv(s) && commit !in Changes(s, bp.name)
    ensures Inv(Push(v, s, bp, message, commit, time))
  {
    var s' := Push(v, s, bp, message, commit, time);
    PushKeepsHistory(Commits(s, bp.name), Changes(s, bp.name), commit, Change(commit, message, None, time, Initialized(bp)));
    forall name | name in s'.commits ensures HistoryOk(s'.commits[name], s'.changes[name]) {
      if name != bp.name {
        assert name in s.commits;
      }
    }
  }

  lemma TagKeepsInv(s: State, name: string)
    requires Inv(s)
    ensures Inv(Tag(s, name).0)
  {
    var s' := Tag(s, name).0;
    if s' != s {
      assert name in s.commits;
      TagKeepsHistory(s.commits[name], s.changes[name]);
      forall other | other in s'.commits ensures HistoryOk(s'.commits[other], s'.changes[other]) {
        assert other in s.commits;
      }
    }
  }

  lemma RunKeepsInv(v: SemVer, s: State, op: Op)
    requires Inv(s) && Fresh(s, op)
    ensures Inv(Run(v, s, op).0)
  {
    match op
    case PushBlueprint(bp, message, commit, time) =>
      if commit.Some? {
        PushKeepsInv(v, s, bp, message, commit.value, time);
      }
    case TagBlueprint(name) =>
      TagKeepsInv(s, name);
    case _ =>
      OtherKeepsInv(v, s, op);
  }

  lemma OtherKeepsInv(v: SemVer, s: State, op: Op)
    requires Inv(s) && !op.PushBlueprint? && !op.TagBlueprint?
    ensures Inv(Run(v, s, op).0)
  {
    var s' := Run(v, s, op).0;
    assert s'.commits == s.commits && s'.changes == s.changes && s'.blueprints.Keys <= s.blueprints.Keys;
  }

  /** A run: operations whose drawn commit id is not fresh are skipped. */
  function Exec(v: SemVer, s: State, ops: seq<Op>): State {
    if ops == [] then s
    else
      var before := Exec(v, s, ops[..|ops| - 1]);
      if Fresh(before, ops[|ops| - 1]) then Run(v, before, ops[|ops| - 1]).0 else before
  }

  /** Every run from a good store, in particular the empty one, keeps the history facts. */
  lemma {:induction false} HistoryAlwaysOk(v: SemVer, s: State, ops: seq<Op>)
    requires Inv(s)
    ensures Inv(Exec(v, s, ops))
  {
    if ops != [] {
      HistoryAlwaysOk(v, s, ops[..|ops| - 1]);
      var before := Exec(v, s, ops[..|ops| - 1]);
      if Fresh(before, ops[|ops| - 1]) {
        RunKeepsInv(v, before, ops[|ops| - 1]);
      }
    }
  }

  lemma EmptyIsOk()
    ensures Inv(EMPTY)
  {
  }

  lemma StepAppends(v: SemVer, s: State, op: Op, name: string)
    ensures Commits(s, name) <= Commits(Run(v, s, op).0, name)
  {
  }

  /** Commit lists grow only by appending, whatever is pushed, tagged or deleted. */
  lemma {:induction false} CommitsOnlyAppended(v: SemVer, s: State, ops: seq<Op>, name: string)
    ensures Commits(s, name) <= Commits(Exec(v, s, ops), name)
  {
    if ops != [] {
      CommitsOnlyAppended(v, s, ops[..|ops| - 1], name);
      StepAppends(v, Exec(v, s, ops[..|ops| - 1]), ops[|ops| - 1], name);
    }
  }

  /** In a good history the tagged commits carry exactly the revisions 1..k, in list order. */
  lemma RevisionsAreCounted(list: seq<string>, changes: map<string, Change>, i: int)
    requires HistoryOk(list, changes) && 0 <= i < |list| && list[i] in changes && changes[list[i]].revision.Some?
    ensures changes[list[i]].revision.value == TagCount(list, changes, i + 1)
    ensures 1 <= changes[list[i]].revision.value <= TagCount(list, changes, |list|)
  {
    assert EntryOk(list, changes, i);
    TagCountMonotone(list, changes, i + 1, |list|);
  }

  lemma {:induction false} TagCountMonotone(list: seq<string>, changes: map<string, Change>, m: nat, n: nat)
    requires m <= n <= |list|
    ensures TagCount(list, changes, m) <= TagCount(list, changes, n)
  {
    if m < n {
      TagCountMonotone(list, changes, m, n - 1);
    }
  }

  /**
   Tagging gives the newest commit the next revision, but files the change record of
   another commit under it unless the blueprint has a single commit.
   */
  lemma TagRecord(v: SemVer, s: State, name: string)
    requires Inv(s) && name in s.blueprints
    requires ChangeAt(Changes(s, name), s.commits[name][|s.commits[name]| - 1]).revision.None?
    ensures var list := s.commits[name];
            var change := ChangeAt(Changes(Run(v, s, TagBlueprint(name)).0, name), list[|list| - 1]);
            && change.revision == Some(TagCount(list, s.changes[name], |list|) + 1)
            && (change.commit == list[|list| - 1] <==> |list| == 1)
  {
    TagKeepsHistory(s.commits[name], s.changes[name]);
  }

  /** Two pushes and a tag from the empty store: the first commit's record is filed under the second. */
  lemma TagLosesRecord(v: SemVer, bp: Blueprint)
    requires v.valid(Initialized(bp).version)
    ensures var s := Exec(v, EMPTY, [PushBlueprint(bp, "first", Some("a"), "t1"), PushBlueprint(bp, "second", Some("b"), "t2"), TagBlueprint(bp.name)]);
            && Commits(s, bp.name) == ["a", "b"]
            && ChangeAt(Changes(s, bp.name), "b") == Change("a", "first", Some(1), "t1", Initialized(bp))
  {
    var ops := [PushBlueprint(bp, "first", Some("a"), "t1"), PushBlueprint(bp, "second", Some("b"), "t2"), TagBlueprint(bp.name)];
    assert ops[..0] == [] && ops[..2][..1] == ops[..1] && ops[..1][..0] == [] && ops[..3] == ops;
    var s2 := Exec(v, EMPTY, ops[..2]);
    TwoPushes(v, bp);
    assert ops[..2] == [ops[0], ops[1]];
    var changes := s2.changes[bp.name];
    assert LastVisited(["a", "b"], changes, 0) == changes["a"];
    assert LastVisited(["a", "b"], changes, 1) == changes["a"];
  }

  lemma TwoPushes(v: SemVer, bp: Blueprint)
    requires v.valid(Initialized(bp).version)
    ensures var s := Exec(v, EMPTY, [PushBlueprint(bp, "first", Some("a"), "t1"), PushBlueprint(bp, "second", Some("b"), "t2")]);
            && bp.name in s.blueprints && bp.name in s.commits && s.commits[bp.name] == ["a", "b"]
            && bp.name in s.changes && s.changes[bp.name] == map[
                 "a" := Change("a", "first", None, "t1", Initialized(bp)),
                 "b" := Change("b", "second", None, "t2", Initialized(bp))]
  {
    var one, two := PushBlueprint(bp, "first", Some("a"), "t1"), PushBlueprint(bp, "second", Some("b"), "t2");
    assert [one, two][..1] == [one] && [one][..0] == [];
    var s1 := Exec(v, EMPTY, [one]);
    assert Exec(v, EMPTY, [one][..0]) == EMPTY && Fresh(EMPTY, one);
    assert s1 == Run(v, EMPTY, one).0;
    assert s1 == Push(v, EMPTY, bp, "first", "a", "t1");
    assert s1.commits[bp.name] == ["a"];
    assert s1.changes[bp.name] == map["a" := Change("a", "first", None, "t1", Initialized(bp))];
    assert "b" !in Changes(s1, bp.name) by {
      assert "a"[0] != "b"[0];
    }
  }

  // ----- what a client sees -----

  /** `GetBlueprint`: the workspace hides the committed blueprint. The flag says which one it is. */
  function Visible(s: State, name: string): Option<(Blueprint, bool)> {
    if name in s.workspace then Some((s.workspace[name], true))
    else if name in s.blueprints then Some((s.blueprints[name], false))
    else None
  }

  /** `GetBlueprintCommitted`. */
  function Committed(s: State, name: string): Option<Blueprint> {
    if name in s.blueprints then Some(s.blueprints[name]) else None
  }

  /**
   A workspace entry hides the committed blueprint of its name and nothing else; taking it
   back shows what was committed, and undoes the push when there was no entry before.
   */
  lemma WorkspaceHides(v: SemVer, s: State, bp: Blueprint, name: string)
    requires Run(v, s, PushToWorkspace(bp)).1 == NoError
    ensures var s' := Run(v, s, PushToWorkspace(bp)).0;
            var s'' := Run(v, s', DeleteFromWorkspace(bp.name)).0;
            && Visible(s', name) == (if name == bp.name then Some((Initialized(bp), true)) else Visible(s, name))
            && Committed(s', name) == Committed(s, name) && Commits(s', name) == Commits(s, name) && Changes(s', name) == Changes(s, name)
            && (name == bp.name ==> Visible(s'', name) == match Committed(s, name) case Some(b) => Some((b, false)) case None => None)
            && (bp.name !in s.workspace ==> s'' == s)
  {
    var s' := Run(v, s, PushToWorkspace(bp)).0;
    assert bp.name !in s.workspace ==> s'.workspace - {bp.name} == s.workspace;
  }

  /** The version a blueprint is pushed with. */
  function PushedVersion(bp: Blueprint): string {
    if bp.version == "" then "0.0.0" else bp.version
  }

  /** A push fails, changing nothing, exactly without a commit id or with a bad version. */
  lemma PushOutcome(v: SemVer, s: State, bp: Blueprint, message: string, commit: Option<string>, time: string)
    ensures var (s', e) := Run(v, s, PushBlueprint(bp, message, commit, time));
            && e == (if commit.None? then RandError else if !v.valid(PushedVersion(bp)) then InvalidVersion else NoError)
            && (e != NoError ==> s' == s)
            && (e == NoError ==> s' == Push(v, s, bp, message, commit.value, time))
  {
  }

  /**
   After a push clients see the committed blueprint: the pushed one, its version bumped exactly
   when the old one had the same. The history gains one record of what was pushed.
   */
  lemma PushShows(v: SemVer, s: State, bp: Blueprint, message: string, commit: string, time: string)
    requires v.valid(PushedVersion(bp))
    ensures var s' := Push(v, s, bp, message, commit, time);
            var version := PushedVersion(bp);
            var again := Committed(s, bp.name).Some? && Committed(s, bp.name).value.version == version;
            && Committed(s', bp.name) == Some(Blueprint(bp.name, if again then v.bump(version) else version, bp.content))
            && Visible(s', bp.name) == Some((Committed(s', bp.name).value, false))
            && Commits(s', bp.name) == Commits(s, bp.name) + [commit]
            && Changes(s', bp.name) == Changes(s, bp.name)[commit := Change(commit, message, None, time, Blueprint(bp.name, version, bp.content))]
  {
  }

  /** All other names, composes and sources are as before the push. */
  lemma PushKeepsOthers(v: SemVer, s: State, bp: Blueprint, message: string, commit: string, time: string, name: string)
    ensures var s' := Push(v, s, bp, message, commit, time);
            && (name != bp.name ==>
                  && Visible(s', name) == Visible(s, name) && Committed(s', name) == Committed(s, name)
                  && Commits(s', name) == Commits(s, name) && Changes(s', name) == Changes(s, name))
            && s'.composes == s.composes && s'.sources == s.sources
  {
  }

  /** When the other operations on blueprints fail; a tag that changes nothing may also succeed. */
  lemma RefusalsMean(v: SemVer, s: State, bp: Blueprint, name: string)
    ensures Run(v, s, PushToWorkspace(bp)).1 == (if v.valid(PushedVersion(bp)) then NoError else InvalidVersion)
    ensures Run(v, s, PushToWorkspace(bp)).1 != NoError ==> Run(v, s, PushToWorkspace(bp)).0 == s
    ensures Run(v, s, DeleteFromWorkspace(name)) ==
            if name in s.workspace then (s.(workspace := s.workspace - {name}), NoError) else (s, UnknownBlueprint)
    ensures Run(v, s, TagBlueprint(name)).1 ==
            if name !in s.blueprints then UnknownBlueprint else if Commits(s, name) == [] then NoCommits else NoError
    ensures Run(v, s, TagBlueprint(name)).1 != NoError ==> Run(v, s, TagBlueprint(name)).0 == s
    ensures Commits(s, name) != [] && ChangeAt(Changes(s, name), Commits(s, name)[|Commits(s, name)| - 1]).revision.Some? ==>
              Run(v, s, TagBlueprint(name)).0 == s
  {
  }

  /** A source is found under its key until it is deleted; nothing else changes. */
  lemma SourceStored(v: SemVer, s: State, key: string, source: Source, other: string)
    ensures var s' := Run(v, s, PushSource(key, source)).0;
            var s'' := Run(v, s, DeleteSource(key)).0;
            && key in s'.sources && s'.sources[key] == source && key !in s''.sources
            && (other != key ==> (other in s'.sources <==> other in s.sources) && (other in s''.sources <==> other in s.sources))
            && (other != key && other in s.sources ==> s'.sources[other] == s.sources[other] == s''.sources[other])
            && s'.(sources := s.sources) == s && s''.(sources := s.sources) == s
  {
  }

  /**
   Deleting a blueprint hides it, committed or not, keeps every history and leaves other
   names alone. It fails exactly when there was no committed blueprint.
   */
  lemma DeleteKeepsHistory(v: SemVer, s: State, name: string, other: string)
    ensures var (s', e) := Run(v, s, DeleteBlueprint(name));
            && Visible(s', other) == (if other == name then None else Visible(s, other))
            && Committed(s', other) == (if other == name then None else Committed(s, other))
            && Commits(s', other) == Commits(s, other) && Changes(s', other) == Changes(s, other)
            && (e == NoError <==> Committed(s, name).Some?)
  {
  }

  /** A push after a deletion continues the old list of commits. */
  lemma PushContinuesHistory(v: SemVer, s: State, bp: Blueprint, message: string, commit: string, time: string)
    ensures var s' := Run(v, s, DeleteBlueprint(bp.name)).0;
            Commits(Push(v, s', bp, message, commit, time), bp.name) == Commits(s, bp.name) + [commit]
  {
  }

  /** The operation removes or replaces the compose `id`. */
  predicate Touches(op: Op, id: Id) {
    op == DeleteCompose(id) || (op.PushTestCompose? && op.id == id)
  }

  /** Over every run a stored compose stays as it was made until it is deleted or replaced by a test compose. */
  lemma {:induction false} ComposeStays(v: SemVer, s: State, ops: seq<Op>, id: Id)
    requires id in s.composes && forall k :: 0 <= k < |ops| ==> !Touches(ops[k], id)
    ensures id in Exec(v, s, ops).composes && Exec(v, s, ops).composes[id] == s.composes[id]
  {
    if ops != [] {
      ComposeStays(v, s, ops[..|ops| - 1], id);
      assert !Touches(ops[|ops| - 1], id);
    }
  }

  /** The compose an operation stores: its blueprint, image and packages; a real one waits, a test one is over and has no job. */
  predicate IsPushed(op: Op, c: Compose)
    requires op.PushCompose? || op.PushTestCompose?
  {
    && c.blueprint == op.bpOpt && c.packages == op.packages
    && c.image.imageType == op.image.imageType && c.image.manifest == op.image.manifest && c.image.targets == op.image.targets
    && c.image.size == op.image.size && c.image.id == op.image.id && c.image.jobCreated == op.image.jobCreated
    && c.image.jobStarted == op.image.jobStarted && c.image.jobFinished == op.image.jobFinished
    && (op.PushCompose? ==> c.image.jobID == op.image.jobID && c.image.queueStatus == Waiting)
    && (op.PushTestCompose? ==> c.image.jobID == NIL_ID && c.image.queueStatus == if op.success then Finished else Failed)
  }

  /**
   A pushed compose, real or for testing, is found under its id and can be taken back without
   a trace when the id was free; a real one never replaces another.
   */
  lemma ComposeUndone(v: SemVer, s: State, op: Op)
    requires op.PushCompose? || op.PushTestCompose?
    ensures var (s', e) := Run(v, s, op);
            && op.id in s'.composes
            && (e == NoError ==> IsPushed(op, s'.composes[op.id]))
            && (forall id :: id != op.id ==> (id in s'.composes <==> id in s.composes) && (id in s.composes ==> s'.composes[id] == s.composes[id]))
            && s'.(composes := s.composes) == s
            && (op.PushCompose? && op.id in s.composes <==> e == AlreadyExists)
            && (e == AlreadyExists ==> s' == s)
            && (op.id !in s.composes ==> Run(v, s', DeleteCompose(op.id)) == (s, NoError))
  {
    var s' := Run(v, s, op).0;
    assert op.id !in s.composes ==> s'.composes - {op.id} == s.composes;
  }
}
