/** The serialised store of internal/store/json.go: saving, loading, and what survives. */
module StoreV0 {
  import opened Wrappers
  import opened Strings
  import opened JobQueue
  import opened Store
  import StoreHistory

  datatype ChangeV0 = ChangeV0(commit: string, message: string, revision: Option<int>, timestamp: string)

  datatype ImageBuildV0 = ImageBuildV0(
    id: int, imageType: string, manifest: string, targets: seq<string>,
    jobCreated: int, jobStarted: int, jobFinished: int, size: nat, jobID: Id, queueStatus: QueueStatus)

  datatype ComposeV0 = ComposeV0(blueprint: Blueprint, imageBuilds: seq<ImageBuildV0>, packages: seq<string>)

  datatype Document = Document(
    blueprints: map<string, Blueprint>,
    workspace: map<string, Blueprint>,
    composes: map<Id, ComposeV0>,
    sources: map<string, Source>,
    changes: map<string, map<string, ChangeV0>>,
    commits: map<string, seq<string>>)

  /** What `Read` leaves in the struct when there is no state file. */
  const ZERO_DOCUMENT := Document(map[], map[], map[], map[], map[], map[])

  /** `distro.Arch.GetImageType`: the image types of the host by name or alias. */
  type Arch = map<string, ImageType>

  /** Image types whose compat name is another one. */
  const RENAMED: map<string, string> := map[
    "vhd" := "Azure",
    "ami" := "AWS",
    "liveiso" := "LiveISO",
    "openstack" := "OpenStack",
    "vmdk" := "VMWare",
    "ext4-filesystem" := "Raw-filesystem",
    "partitioned-disk" := "Partitioned-disk",
    "tar" := "Tar"]

  /** Image types that are their own compat name. */
  const KEPT: set<string> := {
    "qcow2", "fedora-iot-commit",
    "rhel-edge-commit", "rhel-edge-container", "rhel-edge-installer", "rhel-raw-image",
    "rhel-edge-raw-image", "rhel-edge-simplified-installer",
    "edge-commit", "edge-container", "edge-installer", "edge-raw-image", "edge-simplified-installer",
    "image-installer", "test_type", "test_type_invalid", "ec2", "ec2-ha"}

  /** `imageTypeCompatMapping`. */
  const COMPAT: map<string, string> := RENAMED + map name | name in KEPT :: name

  /** The image types of the host and the compat names in use. */
  datatype Host = Host(arch: Arch, compat: map<string, string>) {
    /** No two image types share a compat name. */
    ghost predicate Injective() {
      forall a, b :: a in compat && b in compat && compat[a] == compat[b] ==> a == b
    }

    /** `imageTypeToCompatString` does not panic. */
    predicate Mapped(t: ImageType) {
      t.name in compat
    }

    /** A mapped image type of this host: looking its name up gives it back. */
    predicate Own(t: ImageType) {
      t.name in compat && t.name in arch && arch[t.name] == t
    }
  }

  /** The image type behind a compat name. */
  function Uncompat(v: string): string {
    if v == "Azure" then "vhd"
    else if v == "AWS" then "ami"
    else if v == "LiveISO" then "liveiso"
    else if v == "OpenStack" then "openstack"
    else if v == "VMWare" then "vmdk"
    else if v == "Raw-filesystem" then "ext4-filesystem"
    else if v == "Partitioned-disk" then "partitioned-disk"
    else if v == "Tar" then "tar"
    else v
  }

  /** All new names start with an upper-case letter, and no kept one does. */
  predicate LowerCase(s: string) {
    s != "" && 'a' <= s[0] <= 'z'
  }

  lemma KeptIsLower(a: string)
    requires a in KEPT
    ensures LowerCase(a)
  {
  }

  lemma LowerIsKept(v: string)
    requires LowerCase(v)
    ensures Uncompat(v) == v
  {
  }

  lemma RenamedInverts(a: string)
    requires a in RENAMED
    ensures Uncompat(RENAMED[a]) == a
  {
  }

  lemma UncompatInverts(a: string)
    requires a in COMPAT
    ensures Uncompat(COMPAT[a]) == a
  {
    if a in KEPT {
      KeptIsLower(a);
      LowerIsKept(a);
    } else {
      RenamedInverts(a);
    }
  }

  /** The mapping of the source can be read backwards. */
  lemma CompatInjective(arch: Arch)
    ensures Host(arch, COMPAT).Injective()
  {
    forall a, b | a in COMPAT && b in COMPAT && COMPAT[a] == COMPAT[b] ensures a == b {
      UncompatInverts(a);
      UncompatInverts(b);
    }
  }

  // ----- saving -----

  function SavedChange(c: Change): ChangeV0 {
    ChangeV0(c.commit, c.message, c.revision, c.timestamp)
  }

  function SavedChanges(m: map<string, Change>): map<string, ChangeV0> {
    map k | k in m :: SavedChange(m[k])
  }

  function SavedCompose(h: Host, c: Compose): ComposeV0
    requires h.Mapped(c.image.imageType)
  {
    var i := c.image;
    ComposeV0(
      if c.blueprint.Some? then c.blueprint.value else ZERO_BLUEPRINT,
      [ImageBuildV0(i.id, h.compat[i.imageType.name], i.manifest, i.targets,
                    i.jobCreated, i.jobStarted, i.jobFinished, i.size, i.jobID, i.queueStatus)],
      c.packages)
  }

  predicate AllMapped(h: Host, s: State) {
    forall id :: id in s.composes ==> h.Mapped(s.composes[id].image.imageType)
  }

  /** `toStoreV0`; it panics when some image type has no compat name. */
  function Save(h: Host, s: State): Document
    requires AllMapped(h, s)
  {
    Document(
      s.blueprints, s.workspace,
      map id | id in s.composes :: SavedCompose(h, s.composes[id]),
      s.sources,
      map name | name in s.changes :: SavedChanges(s.changes[name]),
      s.commits)
  }

  // ----- loading -----

  /** `imageTypeFromCompatString` walks the mapping in any order. */
  ghost function TypeFromCompat(h: Host, input: string): Option<ImageType> {
    if k :| k in h.compat && h.compat[k] == input then
      if k in h.arch then Some(h.arch[k]) else None
    else None
  }

  /** Loading forgets that a build was queued or running. */
  function LoadedStatus(q: QueueStatus): QueueStatus {
    if q == Running || q == Waiting then Failed else q
  }

  ghost function LoadedCompose(h: Host, c: ComposeV0): Option<Compose> {
    if |c.imageBuilds| != 1 then None
    else
      var i := c.imageBuilds[0];
      match TypeFromCompat(h, i.imageType)
      case None => None
      case Some(t) =>
        Some(Compose(Some(c.blueprint),
                     ImageBuild(i.id, t, i.manifest, i.targets, i.jobCreated, i.jobStarted, i.jobFinished,
                                i.size, i.jobID, LoadedStatus(i.queueStatus)),
                     c.packages))
  }

  function LoadedChange(c: ChangeV0): Change {
    Change(c.commit, c.message, c.revision, c.timestamp, ZERO_BLUEPRINT)
  }

  function LoadedChanges(m: map<string, ChangeV0>): map<string, Change> {
    map k | k in m :: LoadedChange(m[k])
  }

  /**
   `newCommitsFromV0`: stored lists are kept; a blueprint that has changes but no list
   gets its commits in timestamp order, where equal timestamps may come in any order.
   */
  ghost predicate LoadedCommits(d: Document, commits: map<string, seq<string>>) {
    && commits.Keys == d.commits.Keys + d.changes.Keys
    && (forall name :: name in d.commits ==> commits[name] == d.commits[name])
    && (forall name :: name in d.changes && name !in d.commits ==> ByTimestamp(d.changes[name], commits[name]))
  }

  /** `list` names the changes of `m`, one after the other by timestamp. */
  ghost predicate ByTimestamp(m: map<string, ChangeV0>, list: seq<string>) {
    exists keys: seq<string> :: TimeOrdered(m, keys) && |list| == |keys| &&
      forall i :: 0 <= i < |keys| ==> keys[i] in m && list[i] == m[keys[i]].commit
  }

  ghost predicate TimeOrdered(m: map<string, ChangeV0>, keys: seq<string>) {
    && NoDup(keys) && ToSet(keys) == m.Keys
    && forall i, j :: 0 <= i < j < |keys| ==> keys[i] in m && keys[j] in m && Leq(m[keys[i]].timestamp, m[keys[j]].timestamp)
  }

  /** `newStoreFromV0`: the states a document may be loaded as. */
  ghost predicate LoadsTo(h: Host, d: Document, s: State) {
    && s.blueprints == d.blueprints && s.workspace == d.workspace && s.sources == d.sources
    && s.composes == LoadedComposes(h, d.composes)
    && s.changes == LoadedHistories(d.changes)
    && LoadedCommits(d, s.commits)
  }

  ghost function LoadedComposes(h: Host, m: map<Id, ComposeV0>): map<Id, Compose> {
    map id | id in m && LoadedCompose(h, m[id]).Some? :: LoadedCompose(h, m[id]).value
  }

  function LoadedHistories(m: map<string, map<string, ChangeV0>>): map<string, map<string, Change>> {
    map name | name in m :: LoadedChanges(m[name])
  }

  // ----- load after save -----

  function NormalCompose(c: Compose): Compose {
    Compose(Some(if c.blueprint.Some? then c.blueprint.value else ZERO_BLUEPRINT),
            c.image.(queueStatus := LoadedStatus(c.image.queueStatus)), c.packages)
  }

  function NormalChanges(m: map<string, Change>): map<string, Change> {
    map k | k in m :: m[k].(blueprint := ZERO_BLUEPRINT)
  }

  /** The fixed loss of a save and a load: queue states and the blueprints of changes. */
  function Normalise(s: State): State {
    s.(composes := map id | id in s.composes :: NormalCompose(s.composes[id]),
       changes := map name | name in s.changes :: NormalChanges(s.changes[name]))
  }

  /** What normalising keeps and loses, field by field. */
  lemma NormaliseMeans(s: State)
    ensures var n := Normalise(s);
            && n.blueprints == s.blueprints && n.workspace == s.workspace && n.sources == s.sources && n.commits == s.commits
            && n.composes.Keys == s.composes.Keys && n.changes.Keys == s.changes.Keys
            && (forall id :: id in s.composes ==> ComposeSurvives(s.composes[id], n.composes[id]))
            && (forall name :: name in s.changes ==> ChangesSurvive(s.changes[name], n.changes[name]))
  {
  }

  /** A change loses the blueprint it carried and nothing else. */
  predicate ChangesSurvive(m: map<string, Change>, n: map<string, Change>) {
    n.Keys == m.Keys && forall k :: k in m ==> n[k] == m[k].(blueprint := ZERO_BLUEPRINT)
  }

  /** Only the queue status may change: a finished build stays finished, every other one has failed. */
  predicate ComposeSurvives(c: Compose, n: Compose) {
    && n.packages == c.packages
    && n.blueprint == (if c.blueprint.Some? then c.blueprint else Some(ZERO_BLUEPRINT))
    && n.image == c.image.(queueStatus := if c.image.queueStatus == Finished then Finished else Failed)
  }

  predicate AllOwn(h: Host, s: State) {
    forall id :: id in s.composes ==> h.Own(s.composes[id].image.imageType)
  }

  lemma TypeRoundTrip(h: Host, t: ImageType)
    requires h.Injective() && h.Mapped(t)
    ensures TypeFromCompat(h, h.compat[t.name]) == if t.name in h.arch then Some(h.arch[t.name]) else None
  {
    var input := h.compat[t.name];
    assert exists k :: k in h.compat && h.compat[k] == input;
  }

  lemma ComposeRoundTrip(h: Host, c: Compose)
    requires h.Injective() && h.Mapped(c.image.imageType)
    ensures LoadedCompose(h, SavedCompose(h, c)) == Some(NormalCompose(c)) <==> h.Own(c.image.imageType)
  {
    TypeRoundTrip(h, c.image.imageType);
    var loaded := LoadedCompose(h, SavedCompose(h, c));
    if loaded.Some? {
      assert loaded.value.image.imageType == h.arch[c.image.imageType.name];
      assert loaded.value == NormalCompose(c).(image := NormalCompose(c).image.(imageType := h.arch[c.image.imageType.name]));
    }
  }

  lemma ComposesRoundTrip(h: Host, s: State)
    requires h.Injective() && AllMapped(h, s)
    ensures LoadedComposes(h, Save(h, s).composes) == Normalise(s).composes <==> AllOwn(h, s)
  {
    var loaded, normal := LoadedComposes(h, Save(h, s).composes), Normalise(s).composes;
    forall id | id in s.composes
      ensures (id in loaded && loaded[id] == normal[id]) <==> h.Own(s.composes[id].image.imageType)
    {
      ComposeRoundTrip(h, s.composes[id]);
      assert Save(h, s).composes[id] == SavedCompose(h, s.composes[id]);
    }
    if AllOwn(h, s) {
      assert loaded.Keys == normal.Keys;
    }
  }

  lemma HistoriesRoundTrip(h: Host, s: State)
    requires AllMapped(h, s)
    ensures LoadedHistories(Save(h, s).changes) == Normalise(s).changes
  {
    forall name | name in s.changes
      ensures LoadedHistories(Save(h, s).changes)[name] == Normalise(s).changes[name]
    {
      assert LoadedChanges(SavedChanges(s.changes[name])) == NormalChanges(s.changes[name]);
    }
  }

  /**
   Loading what was saved gives the normalised store exactly when every compose has
   an image type of this host; in that case no other outcome is possible.
   */
  lemma LoadAfterSave(h: Host, s: State, t: State)
    requires h.Injective() && AllMapped(h, s) && s.commits.Keys == s.changes.Keys
    requires LoadsTo(h, Save(h, s), t)
    ensures t == Normalise(s) <==> AllOwn(h, s)
  {
    ComposesRoundTrip(h, s);
    HistoriesRoundTrip(h, s);
    assert t.commits == s.commits by {
      assert Save(h, s).changes.Keys == s.changes.Keys;
      assert t.commits.Keys == s.commits.Keys;
    }
  }

  /** The normalised store is itself an outcome, so loading never gets stuck. */
  lemma NormalisedIsLoaded(h: Host, s: State)
    requires h.Injective() && AllOwn(h, s) && s.commits.Keys == s.changes.Keys
    ensures AllMapped(h, s) && LoadsTo(h, Save(h, s), Normalise(s))
  {
    ComposesRoundTrip(h, s);
    HistoriesRoundTrip(h, s);
    assert Save(h, s).changes.Keys == s.changes.Keys;
  }

  lemma NormaliseIdempotent(s: State)
    ensures Normalise(Normalise(s)) == Normalise(s)
  {
    var n, nn := Normalise(s), Normalise(Normalise(s));
    assert forall id :: id in n.composes ==> nn.composes[id] == n.composes[id];
    forall name | name in n.changes ensures nn.changes[name] == n.changes[name] {
      assert NormalChanges(NormalChanges(s.changes[name])) == NormalChanges(s.changes[name]);
    }
  }

  /** Normalising keeps the history facts, so they hold again after every restart. */
  lemma NormaliseKeepsHistory(s: State)
    requires StoreHistory.Inv(s)
    ensures StoreHistory.Inv(Normalise(s))
  {
    var n := Normalise(s);
    forall name | name in n.commits ensures StoreHistory.HistoryOk(n.commits[name], n.changes[name]) {
      NormalHistory(s.commits[name], s.changes[name]);
    }
  }

  lemma NormalHistory(list: seq<string>, changes: map<string, Change>)
    requires StoreHistory.HistoryOk(list, changes)
    ensures StoreHistory.HistoryOk(list, NormalChanges(changes))
  {
    var changes' := NormalChanges(changes);
    assert changes'.Keys == changes.Keys;
    assert forall k :: k in changes ==> changes'[k].revision == changes[k].revision && changes'[k].commit == changes[k].commit;
    forall i | 0 <= i < |list| ensures StoreHistory.EntryOk(list, changes', i) {
      assert StoreHistory.EntryOk(list, changes, i);
      assert forall k :: 0 <= k < |list| ==> list[k] in ToSet(list);
      StoreHistory.TagCountFrame(list, changes, list, changes', i);
    }
  }

  // ----- the loops -----

  /** The loop over the mapping; with an injective mapping its order does not matter. */
  method ImageTypeFromCompatString(h: Host, input: string) returns (r: Option<ImageType>)
    requires h.Injective()
    ensures r == TypeFromCompat(h, input)
  {
    var todo := h.compat.Keys;
    while todo != {}
      invariant todo <= h.compat.Keys
      invariant forall k :: k in h.compat && k !in todo ==> h.compat[k] != input
      decreases todo
    {
      var k :| k in todo;
      if h.compat[k] == input {
        return if k in h.arch then Some(h.arch[k]) else None;
      }
      todo := todo - {k};
    }
    return None;
  }

  /** `newCommitsFromV0`, with the legacy lists rebuilt by repeated choice of an earliest change. */
  method NewCommitsFromV0(d: Document) returns (commits: map<string, seq<string>>)
    ensures LoadedCommits(d, commits)
  {
    commits := d.commits;
    var todo := d.changes.Keys;
    while todo != {}
      invariant todo <= d.changes.Keys
      invariant commits.Keys == d.commits.Keys + (d.changes.Keys - todo)
      invariant forall name :: name in d.commits ==> commits[name] == d.commits[name]
      invariant forall name :: name in d.changes && name !in todo && name !in d.commits ==>
                  ByTimestamp(d.changes[name], commits[name])
      decreases todo
    {
      var name :| name in todo;
      if name !in commits {
        var list := CommitsByTimestamp(d.changes[name]);
        commits := commits[name := list];
      }
      todo := todo - {name};
    }
  }

  method CommitsByTimestamp(m: map<string, ChangeV0>) returns (list: seq<string>)
    ensures ByTimestamp(m, list)
  {
    var keys: seq<string> := [];
    list := [];
    var todo := m.Keys;
    while todo != {}
      invariant todo <= m.Keys && ToSet(keys) == m.Keys - todo && NoDup(keys) && |list| == |keys|
      invariant forall i :: 0 <= i < |keys| ==> keys[i] in m && list[i] == m[keys[i]].commit
      invariant forall i, j :: 0 <= i < j < |keys| ==> Leq(m[keys[i]].timestamp, m[keys[j]].timestamp)
      invariant forall i, k :: 0 <= i < |keys| && k in todo ==> Leq(m[keys[i]].timestamp, m[k].timestamp)
      decreases todo
    {
      var k := Earliest(m, todo);
      assert k !in keys by {
        assert k !in ToSet(keys);
      }
      assert ToSet(keys + [k]) == ToSet(keys) + {k};
      keys, list, todo := keys + [k], list + [m[k].commit], todo - {k};
    }
    assert TimeOrdered(m, keys);
  }

  method Earliest(m: map<string, ChangeV0>, todo: set<string>) returns (k: string)
    requires todo != {} && todo <= m.Keys
    ensures k in todo && forall x :: x in todo ==> Leq(m[k].timestamp, m[x].timestamp)
  {
    k :| k in todo;
    LeqReflexive(m[k].timestamp);
    var rest := todo - {k};
    while rest != {}
      invariant rest <= todo && k in todo
      invariant forall x :: x in todo && x !in rest ==> Leq(m[k].timestamp, m[x].timestamp)
      decreases rest
    {
      var x :| x in rest;
      LeqTotal(m[k].timestamp, m[x].timestamp);
      LeqReflexive(m[x].timestamp);
      if !Leq(m[k].timestamp, m[x].timestamp) {
        forall y | y in todo && y !in rest ensures Leq(m[x].timestamp, m[y].timestamp) {
          LeqTransitive(m[x].timestamp, m[k].timestamp, m[y].timestamp);
        }
        k := x;
      }
      rest := rest - {x};
    }
  }
}
