/** The package diff of `blueprintsDiffHandler` (internal/weldr/api.go). */
module BlueprintDiff {
  import opened Wrappers

  datatype Package = Package(name: string, version: string)

  datatype Diff = Diff(removed: Option<Package>, added: Option<Package>) {
    predicate Valid() {
      (removed.Some? || added.Some?) && (removed.Some? && added.Some? ==> removed.value.name == added.value.name)
    }

    function Name(): string
      requires Valid()
    {
      if added.Some? then added.value.name else removed.value.name
    }
  }

  /** A package list as a name-to-version map; a later entry wins. */
  function Versions(ps: seq<Package>): map<string, string> {
    if ps == [] then map[] else Versions(ps[..|ps| - 1])[ps[|ps| - 1].name := ps[|ps| - 1].version]
  }

  /** What a client does with a diff. */
  function Patch(m: map<string, string>, d: Diff): map<string, string>
    requires d.Valid()
  {
    if d.added.Some? then m[d.added.value.name := d.added.value.version] else m - {d.removed.value.name}
  }

  predicate AllValid(diffs: seq<Diff>) {
    forall i :: 0 <= i < |diffs| ==> diffs[i].Valid()
  }

  function PatchAll(m: map<string, string>, diffs: seq<Diff>): map<string, string>
    requires AllValid(diffs)
  {
    if diffs == [] then m else Patch(PatchAll(m, diffs[..|diffs| - 1]), diffs[|diffs| - 1])
  }

  lemma PatchSnoc(m: map<string, string>, diffs: seq<Diff>, d: Diff)
    requires AllValid(diffs) && d.Valid()
    ensures AllValid(diffs + [d]) && PatchAll(m, diffs + [d]) == Patch(PatchAll(m, diffs), d)
  {
    assert (diffs + [d])[..|diffs|] == diffs;
  }

  lemma {:induction false} VersionsKeys(ps: seq<Package>, name: string)
    ensures name in Versions(ps) <==> exists i :: 0 <= i < |ps| && ps[i].name == name
  {
    if ps != [] {
      var front := ps[..|ps| - 1];
      VersionsKeys(front, name);
      assert forall i :: 0 <= i < |front| ==> front[i] == ps[i];
    }
  }

  predicate DistinctNames(ps: seq<Package>) {
    forall i, j :: 0 <= i < j < |ps| ==> ps[i].name != ps[j].name
  }

  lemma {:induction false} VersionsAt(ps: seq<Package>, i: nat)
    requires DistinctNames(ps) && i < |ps|
    ensures ps[i].name in Versions(ps) && Versions(ps)[ps[i].name] == ps[i].version
  {
    if i < |ps| - 1 {
      VersionsAt(ps[..|ps| - 1], i);
    }
  }

  /** A diff entry reports a real difference between the two lists. */
  predicate Reports(before: map<string, string>, after: map<string, string>, d: Diff)
    requires d.Valid()
  {
    && (d.removed.Some? <==> d.Name() in before)
    && (d.added.Some? <==> d.Name() in after)
    && (d.removed.Some? ==> before[d.Name()] == d.removed.value.version)
    && (d.added.Some? ==> after[d.Name()] == d.added.value.version)
    && (d.removed.Some? && d.added.Some? ==> d.removed.value.version != d.added.value.version)
  }

  /** The old packages by name, as the first loop fills the map. */
  method OldMap(prev: seq<Package>) returns (m: map<string, Package>)
    ensures m.Keys == Versions(prev).Keys
    ensures forall n :: n in m ==> m[n].name == n && m[n].version == Versions(prev)[n]
  {
    m := map[];
    for i := 0 to |prev|
      invariant m.Keys == Versions(prev[..i]).Keys
      invariant forall n :: n in m ==> m[n].name == n && m[n].version == Versions(prev[..i])[n]
    {
      assert prev[..i + 1][..i] == prev[..i];
      m := m[prev[i].name := prev[i]];
    }
    assert prev[..|prev|] == prev;
  }

  /** Every entry is a real difference and no name is listed twice. */
  ghost predicate Exact(before: map<string, string>, after: map<string, string>, diffs: seq<Diff>)
    requires AllValid(diffs)
  {
    && (forall k :: 0 <= k < |diffs| ==> Reports(before, after, diffs[k]))
    && (forall j, k :: 0 <= j < k < |diffs| ==> diffs[j].Name() != diffs[k].Name())
  }

  lemma ExactSnoc(before: map<string, string>, after: map<string, string>, diffs: seq<Diff>, d: Diff)
    requires AllValid(diffs) && Exact(before, after, diffs) && d.Valid() && Reports(before, after, d)
    requires forall k :: 0 <= k < |diffs| ==> diffs[k].Name() != d.Name()
    ensures AllValid(diffs + [d]) && Exact(before, after, diffs + [d])
  {
  }

  /** The second loop after `i` new packages; `left` is what remains of the old ones. */
  ghost predicate Progress(prev: seq<Package>, next: seq<Package>, i: nat, left: set<string>, diffs: seq<Diff>)
    requires i <= |next|
  {
    && AllValid(diffs) && PatchAll(Versions(prev), diffs) == Versions(prev) + Versions(next[..i])
    && left == Versions(prev).Keys - Versions(next[..i]).Keys
    && (forall k :: 0 <= k < |diffs| ==> diffs[k].added.Some? && diffs[k].Name() in Versions(next[..i]))
    && (DistinctNames(next) ==> Exact(Versions(prev), Versions(next), diffs))
  }

  /** A package that is added, or whose version differs, extends the diff. */
  lemma ReportStep(prev: seq<Package>, next: seq<Package>, i: nat, left: set<string>, diffs: seq<Diff>, d: Diff)
    requires i < |next| && Progress(prev, next, i, left, diffs)
    requires d.Valid() && d.added == Some(next[i]) && (d.removed.Some? <==> next[i].name in left)
    requires d.removed.Some? ==> d.removed.value.version == Versions(prev)[next[i].name] != next[i].version
    ensures Progress(prev, next, i + 1, left - {next[i].name}, diffs + [d])
  {
    assert next[..i + 1][..i] == next[..i];
    PatchSnoc(Versions(prev), diffs, d);
    FreshName(next, i);
    if DistinctNames(next) {
      ExactSnoc(Versions(prev), Versions(next), diffs, d);
    }
  }

  /** An unchanged package adds nothing. */
  lemma SkipStep(prev: seq<Package>, next: seq<Package>, i: nat, left: set<string>, diffs: seq<Diff>)
    requires i < |next| && Progress(prev, next, i, left, diffs)
    requires next[i].name in left && Versions(prev)[next[i].name] == next[i].version
    ensures Progress(prev, next, i + 1, left - {next[i].name}, diffs)
  {
    assert next[..i + 1][..i] == next[..i];
  }

  /**
   Patching the old packages with the diff gives the new ones, for all lists. When the
   new list has distinct names, every entry is a real difference and no name repeats.
   */
  method Compute(prev: seq<Package>, next: seq<Package>) returns (diffs: seq<Diff>)
    ensures AllValid(diffs) && PatchAll(Versions(prev), diffs) == Versions(next)
    ensures DistinctNames(next) ==> Exact(Versions(prev), Versions(next), diffs)
  {
    var left := OldMap(prev);
    diffs := [];
    assert next[..0] == [];
    for i := 0 to |next|
      invariant Progress(prev, next, i, left.Keys, diffs)
      invariant forall n :: n in left ==> left[n].name == n && left[n].version == Versions(prev)[n]
    {
      var p := next[i];
      if p.name in left {
        var o := left[p.name];
        if o.version != p.version {
          ReportStep(prev, next, i, left.Keys, diffs, Diff(Some(o), Some(p)));
          diffs := diffs + [Diff(Some(o), Some(p))];
        } else {
          SkipStep(prev, next, i, left.Keys, diffs);
        }
        left := left - {o.name};
      } else {
        ReportStep(prev, next, i, left.Keys, diffs, Diff(None, Some(p)));
        diffs := diffs + [Diff(None, Some(p))];
        assert left.Keys - {p.name} == left.Keys;
      }
    }
    assert next[..|next|] == next;
    diffs := RemoveLeft(prev, next, left, diffs);
  }

  /** With distinct names, a package is new to the list so far and keeps its version to the end. */
  lemma FreshName(ps: seq<Package>, i: nat)
    requires i < |ps|
    ensures DistinctNames(ps) ==>
              ps[i].name !in Versions(ps[..i]) && ps[i].name in Versions(ps) && Versions(ps)[ps[i].name] == ps[i].version
  {
    VersionsKeys(ps[..i], ps[i].name);
    if DistinctNames(ps) {
      VersionsAt(ps, i);
    }
  }

  /** The last loop: whatever is left of the old packages was removed. */
  method RemoveLeft(prev: seq<Package>, ghost next: seq<Package>, left: map<string, Package>, some: seq<Diff>)
    returns (diffs: seq<Diff>)
    requires forall n :: n in left ==> left[n].name == n && n in Versions(prev) && left[n].version == Versions(prev)[n]
    requires left.Keys == Versions(prev).Keys - Versions(next).Keys
    requires AllValid(some) && PatchAll(Versions(prev), some) == Versions(prev) + Versions(next)
    requires forall k :: 0 <= k < |some| ==> some[k].Name() in Versions(next)
    requires DistinctNames(next) ==> Exact(Versions(prev), Versions(next), some)
    ensures AllValid(diffs) && PatchAll(Versions(prev), diffs) == Versions(next)
    ensures DistinctNames(next) ==> Exact(Versions(prev), Versions(next), diffs)
  {
    diffs := some;
    var todo := left.Keys;
    while todo != {}
      invariant Removing(Versions(prev), Versions(next), left.Keys, diffs, todo, DistinctNames(next))
      decreases todo
    {
      var n :| n in todo;
      RemoveStep(Versions(prev), Versions(next), left.Keys, diffs, left[n], todo, DistinctNames(next));
      diffs := diffs + [Diff(Some(left[n]), None)];
      todo := todo - {n};
    }
  }

  /** The last loop: all of `left` but `todo` has been reported as removed. */
  ghost predicate Removing(before: map<string, string>, after: map<string, string>, left: set<string>, diffs: seq<Diff>, todo: set<string>, distinct: bool) {
    && todo <= left && AllValid(diffs) && PatchAll(before, diffs) == (before + after) - (left - todo)
    && (forall k :: 0 <= k < |diffs| ==> diffs[k].Name() !in todo)
    && (distinct ==> Exact(before, after, diffs))
  }

  /** Reporting one removed package. */
  lemma RemoveStep(before: map<string, string>, after: map<string, string>, left: set<string>, diffs: seq<Diff>, p: Package, todo: set<string>, distinct: bool)
    requires Removing(before, after, left, diffs, todo, distinct)
    requires p.name in todo && p.name in before && p.name !in after && before[p.name] == p.version
    ensures Removing(before, after, left, diffs + [Diff(Some(p), None)], todo - {p.name}, distinct)
  {
    var d := Diff(Some(p), None);
    PatchSnoc(before, diffs, d);
    if distinct {
      ExactSnoc(before, after, diffs, d);
    }
  }

  /** Together: with distinct new names a package is listed exactly when it changed. */
  lemma UnlistedIsUnchanged(before: map<string, string>, after: map<string, string>, diffs: seq<Diff>, name: string)
    requires AllValid(diffs) && PatchAll(before, diffs) == after
    requires forall k :: 0 <= k < |diffs| ==> Reports(before, after, diffs[k])
    ensures (exists k :: 0 <= k < |diffs| && diffs[k].Name() == name) <==>
            !((name in before <==> name in after) && (name in before ==> before[name] == after[name]))
  {
    PatchFrame(before, diffs, name);
  }

  lemma {:induction false} PatchFrame(m: map<string, string>, diffs: seq<Diff>, name: string)
    requires AllValid(diffs)
    ensures (forall k :: 0 <= k < |diffs| ==> diffs[k].Name() != name) ==>
              (name in PatchAll(m, diffs) <==> name in m) && (name in m ==> PatchAll(m, diffs)[name] == m[name])
  {
    if diffs != [] {
      PatchFrame(m, diffs[..|diffs| - 1], name);
    }
  }
}

/** `PackageList.ToPackageInfos` (internal/rpmmd/repository.go). */
module PackageInfos {
  /** `summary` and `build` stand for the fields copied into the info and into a build. */
  datatype Package = Package(name: string, summary: string, build: string)

  datatype Info = Info(name: string, summary: string, builds: seq<string>)

  /** All builds of a name, in input order. */
  function BuildsOf(ps: seq<Package>, name: string): seq<string> {
    if ps == [] then []
    else BuildsOf(ps[..|ps| - 1], name) + if ps[|ps| - 1].name == name then [ps[|ps| - 1].build] else []
  }

  /** The packages that are the first of their name, in input order. */
  function Firsts(ps: seq<Package>): seq<Package> {
    if ps == [] then []
    else
      var front, last := ps[..|ps| - 1], ps[|ps| - 1];
      Firsts(front) + if BuildsOf(front, last.name) == [] then [last] else []
  }

  /** Simple grouping: one entry per first package, with all builds of its name. */
  function Grouped(ps: seq<Package>): (r: seq<Info>)
    ensures |r| == |Firsts(ps)|
    ensures forall i :: 0 <= i < |r| ==> r[i] == Info(Firsts(ps)[i].name, Firsts(ps)[i].summary, BuildsOf(ps, Firsts(ps)[i].name))
  {
    seq(|Firsts(ps)|, i requires 0 <= i < |Firsts(ps)| =>
      Info(Firsts(ps)[i].name, Firsts(ps)[i].summary, BuildsOf(ps, Firsts(ps)[i].name)))
  }

  ghost predicate HasFirst(ps: seq<Package>, n: string) {
    exists i :: 0 <= i < |Firsts(ps)| && Firsts(ps)[i].name == n
  }

  /** First packages have distinct names, and every package's name is among them. */
  lemma {:induction false} FirstsMeaning(ps: seq<Package>)
    ensures forall i, j :: 0 <= i < j < |Firsts(ps)| ==> Firsts(ps)[i].name != Firsts(ps)[j].name
    ensures forall i :: 0 <= i < |Firsts(ps)| ==> BuildsOf(ps, Firsts(ps)[i].name) != []
    ensures forall n :: BuildsOf(ps, n) != [] ==> HasFirst(ps, n)
  {
    if ps != [] {
      var front, last := ps[..|ps| - 1], ps[|ps| - 1];
      FirstsMeaning(front);
      forall n | BuildsOf(ps, n) != [] ensures HasFirst(ps, n) {
        FirstOfName(ps, n);
      }
    }
  }

  lemma FirstOfName(ps: seq<Package>, n: string)
    requires ps != [] && BuildsOf(ps, n) != []
    requires BuildsOf(ps[..|ps| - 1], n) != [] ==> HasFirst(ps[..|ps| - 1], n)
    ensures HasFirst(ps, n)
  {
    var front := ps[..|ps| - 1];
    if BuildsOf(front, n) != [] {
      var i :| 0 <= i < |Firsts(front)| && Firsts(front)[i].name == n;
      assert Firsts(ps)[i].name == n;
    } else {
      assert Firsts(ps)[|Firsts(ps)| - 1].name == n;
    }
  }

  lemma BuildsSnoc(ps: seq<Package>, pkg: Package, n: string)
    ensures BuildsOf(ps + [pkg], n) == BuildsOf(ps, n) + if n == pkg.name then [pkg.build] else []
  {
    assert (ps + [pkg])[..|ps|] == ps;
  }

  /** A package of a new name gets an entry of its own. */
  lemma GroupNew(ps: seq<Package>, pkg: Package)
    requires BuildsOf(ps, pkg.name) == []
    ensures Grouped(ps + [pkg]) == Grouped(ps) + [Info(pkg.name, pkg.summary, [pkg.build])]
  {
    var g, g' := Grouped(ps), Grouped(ps + [pkg]);
    assert (ps + [pkg])[..|ps|] == ps;
    assert Firsts(ps + [pkg]) == Firsts(ps) + [pkg];
    FirstsMeaning(ps);
    forall i | 0 <= i < |g| ensures g'[i] == g[i] {
      assert BuildsOf(ps, Firsts(ps)[i].name) != [];
      BuildsSnoc(ps, pkg, Firsts(ps)[i].name);
    }
    BuildsSnoc(ps, pkg, pkg.name);
    assert BuildsOf(ps + [pkg], pkg.name) == [pkg.build];
    assert g'[|g|] == Info(pkg.name, pkg.summary, [pkg.build]);
  }

  /** A package of a known name is appended to the builds of its entry. */
  lemma GroupMore(ps: seq<Package>, pkg: Package, i: nat)
    requires i < |Grouped(ps)| && Grouped(ps)[i].name == pkg.name
    ensures BuildsOf(ps, pkg.name) != []
    ensures Grouped(ps + [pkg]) == Grouped(ps)[i := Grouped(ps)[i].(builds := Grouped(ps)[i].builds + [pkg.build])]
  {
    var g, g' := Grouped(ps), Grouped(ps + [pkg]);
    assert (ps + [pkg])[..|ps|] == ps;
    FirstsMeaning(ps);
    assert BuildsOf(ps, Firsts(ps)[i].name) != [];
    assert Firsts(ps + [pkg]) == Firsts(ps);
    forall k | 0 <= k < |g| ensures g'[k] == g[i := g[i].(builds := g[i].builds + [pkg.build])][k] {
      assert k != i ==> Firsts(ps)[k].name != Firsts(ps)[i].name;
      BuildsSnoc(ps, pkg, Firsts(ps)[k].name);
    }
  }

  /** The builds of a name are in input order: the one of package `i` comes after those before it. */
  lemma {:induction false} NthBuild(ps: seq<Package>, i: nat)
    requires i < |ps|
    ensures var n := |BuildsOf(ps[..i], ps[i].name)|;
            n < |BuildsOf(ps, ps[i].name)| && BuildsOf(ps, ps[i].name)[n] == ps[i].build
  {
    var front := ps[..|ps| - 1];
    if i < |ps| - 1 {
      NthBuild(front, i);
      assert front[..i] == ps[..i];
    } else {
      assert front == ps[..i];
    }
  }

  /** Entries are in the order of first appearance. */
  lemma {:induction false} NthFirst(ps: seq<Package>, i: nat)
    requires i < |ps| && BuildsOf(ps[..i], ps[i].name) == []
    ensures |Firsts(ps[..i])| < |Firsts(ps)| && Firsts(ps)[|Firsts(ps[..i])|] == ps[i]
  {
    var front := ps[..|ps| - 1];
    if i < |ps| - 1 {
      assert front[..i] == ps[..i];
      NthFirst(front, i);
    } else {
      assert front == ps[..i];
    }
  }

  function Total(infos: seq<Info>): nat {
    if infos == [] then 0 else Total(infos[..|infos| - 1]) + |infos[|infos| - 1].builds|
  }

  /** Every package contributes exactly one build. */
  lemma {:induction false} NothingLost(ps: seq<Package>)
    ensures Total(Grouped(ps)) == |ps|
  {
    if ps == [] {
      assert Grouped(ps) == [];
    } else {
      var front, last := ps[..|ps| - 1], ps[|ps| - 1];
      NothingLost(front);
      assert ps == front + [last];
      if BuildsOf(front, last.name) == [] {
        GroupNew(front, last);
        assert Grouped(ps)[..|Grouped(ps)| - 1] == Grouped(front);
      } else {
        FirstsMeaning(front);
        assert HasFirst(front, last.name);
        var i :| 0 <= i < |Firsts(front)| && Firsts(front)[i].name == last.name;
        GroupMore(front, last, i);
        TotalUpdate(Grouped(front), i, last.build);
      }
    }
  }

  lemma {:induction false} TotalUpdate(infos: seq<Info>, i: nat, build: string)
    requires i < |infos|
    ensures Total(infos[i := infos[i].(builds := infos[i].builds + [build])]) == Total(infos) + 1
  {
    var n := |infos| - 1;
    var changed := infos[i := infos[i].(builds := infos[i].builds + [build])];
    if i < n {
      TotalUpdate(infos[..n], i, build);
      assert changed[..n] == infos[..n][i := infos[i].(builds := infos[i].builds + [build])];
    } else {
      assert changed[..n] == infos[..n];
    }
  }

  /** `index` knows exactly where the entry of each name seen so far is. */
  ghost predicate Indexed(ps: seq<Package>, index: map<string, nat>, results: seq<Info>) {
    && (forall n :: n !in index ==> BuildsOf(ps, n) == [])
    && (forall n :: n in index ==> index[n] < |results| && results[index[n]].name == n)
  }

  lemma IndexStep(ps: seq<Package>, pkg: Package, index: map<string, nat>, results: seq<Info>,
                  index': map<string, nat>, results': seq<Info>)
    requires Indexed(ps, index, results) && |results| <= |results'|
    requires forall i :: 0 <= i < |results| ==> results'[i].name == results[i].name
    requires index'.Keys == index.Keys + {pkg.name} && forall n :: n in index ==> index'[n] == index[n]
    requires index'[pkg.name] < |results'| && results'[index'[pkg.name]].name == pkg.name
    ensures Indexed(ps + [pkg], index', results')
  {
    forall n | n !in index' ensures BuildsOf(ps + [pkg], n) == [] {
      BuildsSnoc(ps, pkg, n);
      assert BuildsOf(ps, n) == [];
    }
  }

  /** The loop with its index map: `index[n]` is always the entry named `n`. */
  method ToPackageInfos(ps: seq<Package>) returns (results: seq<Info>)
    ensures results == Grouped(ps)
  {
    var index: map<string, nat> := map[];
    results := [];
    for k := 0 to |ps|
      invariant results == Grouped(ps[..k])
      invariant Indexed(ps[..k], index, results)
    {
      var pkg := ps[k];
      ghost var before, oldIndex, oldResults := ps[..k], index, results;
      assert ps[..k + 1] == before + [pkg];
      if pkg.name in index {
        var i := index[pkg.name];
        GroupMore(before, pkg, i);
        results := results[i := results[i].(builds := results[i].builds + [pkg.build])];
      } else {
        GroupNew(before, pkg);
        index := index[pkg.name := |results|];
        results := results + [Info(pkg.name, pkg.summary, [pkg.build])];
      }
      IndexStep(before, pkg, oldIndex, oldResults, index, results);
    }
    assert ps[..|ps|] == ps;
  }
}
