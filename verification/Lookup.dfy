/** Binary search as used through Go's `sort.Search` and `sort.SearchStrings`. */
module Search {
  import opened Strings

  /** The least index whose entry is not below `x`, as `sort.Search` finds it. */
  predicate IsLeast(keys: seq<string>, x: string, i: nat) {
    && i <= |keys|
    && (forall k :: 0 <= k < i ==> !Leq(x, keys[k]))
    && (forall k :: i <= k < |keys| ==> Leq(x, keys[k]))
  }

  method SearchStrings(keys: seq<string>, x: string) returns (i: nat)
    requires Sorted(keys)
    ensures IsLeast(keys, x, i)
  {
    var lo, hi := 0, |keys|;
    while lo < hi
      invariant 0 <= lo <= hi <= |keys|
      invariant forall k :: 0 <= k < lo ==> !Leq(x, keys[k])
      invariant forall k :: hi <= k < |keys| ==> Leq(x, keys[k])
    {
      var mid := (lo + hi) / 2;
      if !Leq(x, keys[mid]) {
        forall k | 0 <= k <= mid ensures !Leq(x, keys[k]) {
          NotAbove(keys, x, k, mid);
        }
        lo := mid + 1;
      } else {
        forall k | mid <= k < |keys| ensures Leq(x, keys[k]) {
          if k > mid {
            LeqTransitive(x, keys[mid], keys[k]);
          }
        }
        hi := mid;
      }
    }
    i := lo;
  }

  lemma NotAbove(keys: seq<string>, x: string, k: nat, mid: nat)
    requires Sorted(keys) && k <= mid < |keys| && !Leq(x, keys[mid])
    ensures !Leq(x, keys[k])
  {
    if Leq(x, keys[k]) && k < mid {
      LeqTransitive(x, keys[k], keys[mid]);
    }
  }

  /** The search hits `x` exactly when it is listed. */
  lemma HitExactly(keys: seq<string>, x: string, i: nat)
    requires Sorted(keys) && IsLeast(keys, x, i)
    ensures (i < |keys| && keys[i] == x) <==> x in keys
  {
    LeqReflexive(x);
    if x in keys {
      var k :| 0 <= k < |keys| && keys[k] == x;
      assert i <= k;
      if i < k {
        LeqAntisymmetric(x, keys[i]);
      }
    }
  }

  /** `common.IsStringInSortedSlice`. */
  method IsStringInSortedSlice(slice: seq<string>, s: string) returns (found: bool)
    requires Sorted(slice)
    ensures found <==> s in slice
  {
    var i := SearchStrings(slice, s);
    HitExactly(slice, s, i);
    found := i < |slice| && slice[i] == s;
  }
}

/** Which distributions the weldr API accepts (internal/weldr/api.go, internal/distroregistry). */
module Distros {
  import opened Wrappers
  import opened Strings
  import opened Search

  datatype Distro = Distro(name: string, content: string)

  /** Distribution name to architecture to its repositories. */
  type Repos = map<string, map<string, seq<string>>>

  class Registry {
    var distros: map<string, Distro>

    ghost predicate Valid()
      reads this
    {
      forall n :: n in distros ==> distros[n].name == n
    }

    constructor ()
      ensures Valid() && distros == map[]
    {
      distros := map[];
    }

    /** The loop of `New`; it refuses two distributions of one name. */
    method AddAll(ds: seq<Distro>) returns (ok: bool)
      requires Valid() && distros == map[]
      modifies this
      ensures Valid()
      ensures ok <==> forall i, j :: 0 <= i < j < |ds| ==> ds[i].name != ds[j].name
      ensures ok ==> forall n, d :: (n in distros && distros[n] == d) <==> (d in ds && d.name == n)
    {
      for k := 0 to |ds|
        invariant Valid()
        invariant forall i, j :: 0 <= i < j < k ==> ds[i].name != ds[j].name
        invariant forall i :: 0 <= i < k ==> ds[i].name in distros && distros[ds[i].name] == ds[i]
        invariant forall n :: n in distros ==> exists i :: 0 <= i < k && ds[i] == distros[n]
      {
        if ds[k].name in distros {
          var i :| 0 <= i < k && ds[i] == distros[ds[k].name];
          return false;
        }
        distros := distros[ds[k].name := ds[k]];
      }
      return true;
    }

    method List() returns (names: seq<string>)
      requires Valid()
      ensures Enumerates(names, distros.Keys)
    {
      names := SortedKeys(distros.Keys);
    }

    method GetDistro(name: string) returns (d: Option<Distro>)
      ensures d == if name in distros then Some(distros[name]) else None
    {
      d := if name in distros then Some(distros[name]) else None;
    }
  }

  predicate HasRepos(repos: Repos, distro: string, arch: string) {
    distro in repos && arch in repos[distro]
  }

  /** `validDistros`: the sorted list of registered distributions that have repositories. */
  method ValidDistros(r: Registry, repos: Repos, arch: string) returns (distros: seq<string>)
    requires r.Valid()
    ensures Sorted(distros)
    ensures forall n :: n in distros <==> n in r.distros && n in repos && arch in repos[n]
  {
    var all := r.List();
    distros := [];
    for k := 0 to |all|
      invariant Sorted(distros)
      invariant forall n :: n in distros <==> n in all[..k] && HasRepos(repos, n, arch)
    {
      assert all[..k + 1] == all[..k] + [all[k]];
      if HasRepos(repos, all[k], arch) {
        forall i | 0 <= i < |distros| ensures Leq(distros[i], all[k]) {
          assert distros[i] in all[..k];
          var j :| 0 <= j < k && all[j] == distros[i];
        }
        distros := distros + [all[k]];
      }
    }
    assert all[..|all|] == all;
    assert forall n :: n in all <==> n in ToSet(all);
  }

  /** `api.getDistro` over the list made at start-up accepts exactly the registered names with repositories. */
  method GetDistro(r: Registry, repos: Repos, arch: string, name: string) returns (d: Option<Distro>)
    requires r.Valid()
    ensures d.Some? <==> name in r.distros && name in repos && arch in repos[name]
    ensures d.Some? ==> d.value == r.distros[name] && d.value.name == name
  {
    var distros := ValidDistros(r, repos, arch);
    var known := IsStringInSortedSlice(distros, name);
    if !known {
      return None;
    }
    d := r.GetDistro(name);
  }
}

/** `setPkgEVRA` (internal/weldr/api.go): freezing package versions in place. */
module Freeze {
  import opened Wrappers
  import opened Strings
  import opened Search

  datatype Spec = Spec(name: string, epoch: nat, version: string, release: string, arch: string)

  datatype Package = Package(name: string, version: string)

  function Evra(d: Spec): string {
    (if d.epoch == 0 then "" else Decimal(d.epoch) + ":") + d.version + "-" + d.release + "." + d.arch
  }

  function Names(deps: seq<Spec>): (r: seq<string>)
    ensures |r| == |deps| && forall i :: 0 <= i < |r| ==> r[i] == deps[i].name
  {
    seq(|deps|, i requires 0 <= i < |deps| => deps[i].name)
  }

  /** Plain lookup: the first dependency of a name. */
  function Find(deps: seq<Spec>, name: string): Option<Spec> {
    if deps == [] then None
    else if deps[0].name == name then Some(deps[0])
    else Find(deps[1..], name)
  }

  lemma {:induction false} FindAt(deps: seq<Spec>, name: string, i: nat)
    requires i < |deps| && deps[i].name == name && forall k :: 0 <= k < i ==> deps[k].name != name
    ensures Find(deps, name) == Some(deps[i])
  {
    if i > 0 {
      FindAt(deps[1..], name, i - 1);
    }
  }

  lemma {:induction false} FindNone(deps: seq<Spec>, name: string)
    requires forall k :: 0 <= k < |deps| ==> deps[k].name != name
    ensures Find(deps, name) == None
  {
    if deps != [] {
      FindNone(deps[1..], name);
    }
  }

  /** With unique names, lookup finds the dependency of that name wherever it stands. */
  lemma FindUnique(deps: seq<Spec>, i: nat)
    requires i < |deps| && forall j, k :: 0 <= j < k < |deps| ==> deps[j].name != deps[k].name
    ensures Find(deps, deps[i].name) == Some(deps[i])
  {
    FindAt(deps, deps[i].name, i);
  }

  method Lookup(deps: seq<Spec>, name: string) returns (d: Option<Spec>)
    requires Sorted(Names(deps))
    ensures d == Find(deps, name)
  {
    var i := SearchStrings(Names(deps), name);
    HitExactly(Names(deps), name, i);
    LeqReflexive(name);
    if i < |deps| && deps[i].name == name {
      FindAt(deps, name, i);
      return Some(deps[i]);
    }
    forall k | 0 <= k < |deps| ensures deps[k].name != name {
      assert deps[k].name == Names(deps)[k];
    }
    FindNone(deps, name);
    return None;
  }

  /**
   Versions are replaced in place, package by package. At the first package that is
   missing from the dependencies the loop stops, leaving the rest as it was.
   */
  method SetPkgEVRA(deps: seq<Spec>, packages: array<Package>) returns (missing: Option<string>, ghost frozen: nat)
    requires Sorted(Names(deps))
    modifies packages
    ensures frozen <= packages.Length && (missing.None? <==> frozen == packages.Length)
    ensures missing.Some? ==> missing.value == packages[frozen].name && Find(deps, missing.value).None?
    ensures forall i :: 0 <= i < packages.Length ==> packages[i].name == old(packages[i]).name
    ensures forall i :: frozen <= i < packages.Length ==> packages[i] == old(packages[i])
    ensures forall i :: 0 <= i < frozen ==> Frozen(deps, packages[i])
  {
    for n := 0 to packages.Length
      invariant forall i :: 0 <= i < packages.Length ==> packages[i].name == old(packages[i]).name
      invariant forall i :: n <= i < packages.Length ==> packages[i] == old(packages[i])
      invariant forall i :: 0 <= i < n ==> Frozen(deps, packages[i])
    {
      var d := Lookup(deps, packages[n].name);
      if d.None? {
        return Some(packages[n].name), n;
      }
      packages[n] := packages[n].(version := Evra(d.value));
    }
    return None, packages.Length;
  }

  /** The package carries the epoch-version-release-arch of the dependency of its name. */
  predicate Frozen(deps: seq<Spec>, p: Package) {
    && Find(deps, p.name).Some?
    && var d := Find(deps, p.name).value;
       p.version == (if d.epoch == 0 then "" else Decimal(d.epoch) + ":") + d.version + "-" + d.release + "." + d.arch
  }

  lemma EvraExamples()
    ensures Evra(Spec("bash", 0, "5.1", "2.el8", "x86_64")) == "5.1-2.el8.x86_64"
    ensures Evra(Spec("bash", 1, "5.1", "2.el8", "x86_64")) == "1:5.1-2.el8.x86_64"
  {
    assert Decimal(1) == "1";
  }
}

/** OCI archive inputs as "layer.N" keys and back (internal/osbuild2/oci_archive_stage.go). */
module OciArchive {
  import opened Wrappers
  import opened Strings

  /** `L` is one stage input. */
  datatype Inputs<L> = Inputs(base: Option<L>, layers: seq<L>)

  const PREFIX := "layer."

  function LayerKey(n: nat): string {
    PREFIX + Decimal(n)
  }

  /** The map `MarshalJSON` builds. */
  function LayerMap<L>(layers: seq<L>, n: nat): map<string, L>
    requires n <= |layers|
  {
    if n == 0 then map[] else LayerMap(layers, n - 1)[LayerKey(n) := layers[n - 1]]
  }

  function Printed<L>(inputs: Inputs<L>): map<string, L> {
    var layers := LayerMap(inputs.layers, |inputs.layers|);
    if inputs.base.Some? then layers["base" := inputs.base.value] else layers
  }

  lemma LayerMapNext<L>(layers: seq<L>, n: nat)
    requires n < |layers|
    ensures LayerMap(layers, n + 1) == LayerMap(layers, n)[LayerKey(n + 1) := layers[n]]
  {
  }

  /** Layer `i` is in the map under "layer." and its number, counted from one. */
  predicate HoldsLayer<L(==)>(m: map<string, L>, layers: seq<L>, i: nat)
    requires i < |layers|
  {
    "layer." + Decimal(i + 1) in m && m["layer." + Decimal(i + 1)] == layers[i]
  }

  /** The base and every layer are where they belong. */
  lemma PrintedHolds<L>(inputs: Inputs<L>)
    ensures forall i :: 0 <= i < |inputs.layers| ==> HoldsLayer(Printed(inputs), inputs.layers, i)
    ensures "base" in Printed(inputs) <==> inputs.base.Some?
  {
    forall i | 0 <= i < |inputs.layers| ensures HoldsLayer(Printed(inputs), inputs.layers, i) {
      LayerAt(inputs.layers, |inputs.layers|, i + 1);
      KeyNotBase(i + 1);
    }
    if "base" in LayerMap(inputs.layers, |inputs.layers|) {
      var i := LayerOf(inputs.layers, |inputs.layers|, "base");
      KeyNotBase(i);
    }
  }

  method Marshal<L>(inputs: Inputs<L>) returns (m: map<string, L>)
    ensures m == Printed(inputs)
    ensures forall i :: 0 <= i < |inputs.layers| ==> HoldsLayer(m, inputs.layers, i)
    ensures "base" in m <==> inputs.base.Some?
    ensures inputs.base.Some? ==> m["base"] == inputs.base.value
  {
    PrintedHolds(inputs);
    m := map[];
    for idx := 0 to |inputs.layers|
      invariant m == LayerMap(inputs.layers, idx)
    {
      LayerMapNext(inputs.layers, idx);
      m := m[LayerKey(idx + 1) := inputs.layers[idx]];
    }
    if inputs.base.Some? {
      m := m["base" := inputs.base.value];
    }
  }

  lemma KeyInjective(m: nat, n: nat)
    requires LayerKey(m) == LayerKey(n)
    ensures m == n
  {
    assert LayerKey(m)[|PREFIX|..] == Decimal(m) && LayerKey(n)[|PREFIX|..] == Decimal(n);
    DecimalInjective(m, n);
  }

  lemma KeyNotBase(n: nat)
    ensures LayerKey(n) != "base"
  {
    assert LayerKey(n)[0] == PREFIX[0] == 'l';
  }

  /** Every layer is found under its key. */
  lemma {:induction false} LayerAt<L>(layers: seq<L>, n: nat, i: nat)
    requires 1 <= i <= n <= |layers|
    ensures LayerKey(i) in LayerMap(layers, n) && LayerMap(layers, n)[LayerKey(i)] == layers[i - 1]
  {
    if i < n {
      LayerAt(layers, n - 1, i);
      if LayerKey(i) == LayerKey(n) {
        KeyInjective(i, n);
      }
    }
  }

  /** Every key is that of a layer. */
  lemma {:induction false} LayerOf<L>(layers: seq<L>, n: nat, key: string) returns (i: nat)
    requires n <= |layers| && key in LayerMap(layers, n)
    ensures 1 <= i <= n && LayerKey(i) == key
  {
    if key == LayerKey(n) {
      i := n;
    } else {
      i := LayerOf(layers, n - 1, key);
    }
  }

  /** The keys of the map are exactly those of the layers, each with its layer. */
  lemma LayerMapMeaning<L>(layers: seq<L>, n: nat, key: string)
    requires n <= |layers|
    ensures key in LayerMap(layers, n) <==> exists i :: 1 <= i <= n && LayerKey(i) == key
    ensures forall i :: 1 <= i <= n && LayerKey(i) == key ==> key in LayerMap(layers, n) && LayerMap(layers, n)[key] == layers[i - 1]
  {
    forall i | 1 <= i <= n && LayerKey(i) == key ensures key in LayerMap(layers, n) && LayerMap(layers, n)[key] == layers[i - 1] {
      LayerAt(layers, n, i);
    }
    if key in LayerMap(layers, n) {
      var i := LayerOf(layers, n, key);
    }
  }

  /** The unanchored pattern of `layerKeys`: "layer." followed by a digit from 1 to 9, anywhere. */
  predicate MatchesAt(key: string, i: nat) {
    i + |PREFIX| < |key| && key[i..i + |PREFIX|] == PREFIX && '1' <= key[i + |PREFIX|] <= '9'
  }

  predicate Matches(key: string) {
    exists i :: 0 <= i < |key| && MatchesAt(key, i)
  }

  /** The pattern is not anchored and wants a first digit other than zero. */
  lemma MatchesExamples()
    ensures Matches("layer.1") && Matches("xlayer.9y") && !Matches("layer.0") && !Matches("layer.") && !Matches("layer1")
  {
    assert "layer.1"[0..6] == PREFIX && MatchesAt("layer.1", 0);
    assert "xlayer.9y"[1..7] == PREFIX && MatchesAt("xlayer.9y", 1);
    assert forall i: nat :: !MatchesAt("layer.0", i);
  }

  lemma PrintedKeyMatches(n: nat)
    requires n >= 1
    ensures Matches(LayerKey(n))
  {
    var d := Decimal(n)[0];
    assert d in DIGITS && d != '0';
    assert LayerKey(n)[0..|PREFIX|] == PREFIX && LayerKey(n)[|PREFIX|] == d;
    assert MatchesAt(LayerKey(n), 0);
  }

  /** `UnmarshalJSON`: the layers in the string order of their keys. */
  function Picked<L>(m: map<string, L>, keys: seq<string>): (r: seq<L>)
    requires forall k :: k in keys ==> k in m
    ensures |r| == |keys| && forall i :: 0 <= i < |keys| ==> r[i] == m[keys[i]]
  {
    seq(|keys|, i requires 0 <= i < |keys| => m[keys[i]])
  }

  /** `layerKeys`: the sorted keys other than "base", if they all match. */
  method LayerKeys<L>(m: map<string, L>) returns (keys: Option<seq<string>>)
    ensures keys.Some? <==> forall k :: k in m && k != "base" ==> Matches(k)
    ensures keys.Some? ==> Enumerates(keys.value, m.Keys - {"base"})
  {
    var sorted := SortedKeys(m.Keys - {"base"});
    for i := 0 to |sorted|
      invariant forall j :: 0 <= j < i ==> Matches(sorted[j])
    {
      if !Matches(sorted[i]) {
        EnumeratesMember(sorted, m.Keys - {"base"}, sorted[i]);
        return None;
      }
    }
    forall k | k in m && k != "base" ensures Matches(k) {
      EnumeratesMember(sorted, m.Keys - {"base"}, k);
    }
    return Some(sorted);
  }

  /** What parsing a map gives: the layers along the sorted keys. */
  ghost predicate ParsesTo<L(!new)>(m: map<string, L>, layers: seq<L>) {
    exists keys :: Enumerates(keys, m.Keys - {"base"}) && (forall k :: k in keys ==> k in m) && layers == Picked(m, keys)
  }

  method Unmarshal<L(!new)>(m: map<string, L>) returns (r: Option<Inputs<L>>)
    ensures r.Some? <==> "base" in m && forall k :: k in m && k != "base" ==> Matches(k)
    ensures r.Some? ==> r.value.base == Some(m["base"]) && ParsesTo(m, r.value.layers)
  {
    if "base" !in m {
      return None;
    }
    var keys := LayerKeys(m);
    if keys.None? {
      return None;
    }
    forall k | k in keys.value ensures k in m {
      EnumeratesMember(keys.value, m.Keys - {"base"}, k);
    }
    var layers: seq<L> := [];
    for i := 0 to |keys.value|
      invariant |layers| == i && forall j :: 0 <= j < i ==> layers[j] == m[keys.value[j]]
    {
      layers := layers + [m[keys.value[i]]];
    }
    assert layers == Picked(m, keys.value);
    return Some(Inputs(Some(m["base"]), layers));
  }

  // ----- round trip -----

  /** What parsing a printed value gives: the layers in the string order of their numbers. */
  ghost predicate RoundTrips<L(!new)>(inputs: Inputs<L>, parsed: Inputs<L>) {
    inputs.base.Some? && parsed.base == inputs.base && ParsesTo(Printed(inputs), parsed.layers)
  }

  lemma PrintedKeys<L>(inputs: Inputs<L>, key: string)
    requires inputs.base.Some?
    ensures "base" in Printed(inputs) && Printed(inputs)["base"] == inputs.base.value
    ensures key in Printed(inputs) && key != "base" <==> exists i :: 1 <= i <= |inputs.layers| && LayerKey(i) == key
    ensures forall i :: 1 <= i <= |inputs.layers| && LayerKey(i) == key ==> key in Printed(inputs) && Printed(inputs)[key] == inputs.layers[i - 1]
  {
    LayerMapMeaning(inputs.layers, |inputs.layers|, key);
    forall i: nat {
      KeyNotBase(i);
    }
  }

  /** Parsing succeeds on what was printed exactly when a base is present. */
  method PrintAndParse<L(!new)>(inputs: Inputs<L>) returns (parsed: Option<Inputs<L>>)
    ensures parsed.Some? <==> inputs.base.Some?
    ensures parsed.Some? ==> RoundTrips(inputs, parsed.value)
  {
    var m := Marshal(inputs);
    if inputs.base.Some? {
      forall k | k in m && k != "base" ensures Matches(k) {
        PrintedKeys(inputs, k);
        var i :| 1 <= i <= |inputs.layers| && LayerKey(i) == k;
        PrintedKeyMatches(i);
      }
      PrintedKeys(inputs, "base");
    } else {
      LayerMapMeaning(inputs.layers, |inputs.layers|, "base");
      forall i: nat {
        KeyNotBase(i);
      }
    }
    parsed := Unmarshal(m);
  }

  /** The keys in layer order. */
  function InOrder(n: nat): (keys: seq<string>)
    ensures |keys| == n && forall i :: 0 <= i < n ==> keys[i] == LayerKey(i + 1)
  {
    seq(n, i requires 0 <= i < n => LayerKey(i + 1))
  }

  lemma InOrderEnumerates<L>(inputs: Inputs<L>)
    requires inputs.base.Some?
    ensures var keys := InOrder(|inputs.layers|);
            && NoDup(keys) && ToSet(keys) == Printed(inputs).Keys - {"base"}
            && (forall k :: k in keys ==> k in Printed(inputs)) && Picked(Printed(inputs), keys) == inputs.layers
  {
    var n := |inputs.layers|;
    var keys := InOrder(n);
    forall i, j | 0 <= i < j < n ensures keys[i] != keys[j] {
      if keys[i] == keys[j] {
        KeyInjective(i + 1, j + 1);
      }
    }
    forall key ensures key in keys <==> key in Printed(inputs) && key != "base" {
      PrintedKeys(inputs, key);
      if key in keys {
        var i :| 0 <= i < n && keys[i] == key;
        assert LayerKey(i + 1) == key;
      }
      if key in Printed(inputs) && key != "base" {
        var i :| 1 <= i <= n && LayerKey(i) == key;
        assert keys[i - 1] == key;
      }
    }
    forall i | 0 <= i < n ensures keys[i] in Printed(inputs) && Printed(inputs)[keys[i]] == inputs.layers[i] {
      PrintedKeys(inputs, keys[i]);
      assert LayerKey(i + 1) == keys[i];
    }
  }

  /** Picking along rearranged keys rearranges the picked values. */
  lemma {:induction false} PickedPermutes<L>(m: map<string, L>, keys: seq<string>, keys': seq<string>)
    requires multiset(keys) == multiset(keys') && (forall k :: k in keys ==> k in m) && (forall k :: k in keys' ==> k in m)
    ensures multiset(Picked(m, keys)) == multiset(Picked(m, keys'))
    decreases |keys|
  {
    if keys == [] {
      assert |multiset(keys')| == 0;
      assert Picked(m, keys) == [] && Picked(m, keys') == [];
    } else {
      var front, last := keys[..|keys| - 1], keys[|keys| - 1];
      assert keys == front + [last];
      assert last in multiset(keys');
      var j :| 0 <= j < |keys'| && keys'[j] == last;
      var a, b := keys'[..j], keys'[j + 1..];
      assert keys' == a + [last] + b;
      CancelLast(front, last, a, b);
      assert forall k :: k in a + b ==> k in keys';
      PickedPermutes(m, front, a + b);
      PickedMiddle(m, front, last, []);
      assert front + [last] + [] == keys && front + [] == front;
      PickedMiddle(m, a, last, b);
    }
  }

  lemma PickedMiddle<L>(m: map<string, L>, a: seq<string>, x: string, b: seq<string>)
    requires forall k :: k in a + [x] + b ==> k in m
    ensures (forall k :: k in a + b ==> k in m) && x in m
    ensures multiset(Picked(m, a + [x] + b)) == multiset(Picked(m, a + b)) + multiset{m[x]}
  {
    var s := a + [x] + b;
    assert forall k :: k in a + b ==> k in s;
    assert x in s;
    assert Picked(m, a + b) == Picked(m, a + b)[..|a|] + Picked(m, a + b)[|a|..];
    assert Picked(m, s) == Picked(m, a + b)[..|a|] + [m[x]] + Picked(m, a + b)[|a|..];
  }

  lemma CancelLast(front: seq<string>, last: string, a: seq<string>, b: seq<string>)
    requires multiset(front + [last]) == multiset(a + [last] + b)
    ensures multiset(front) == multiset(a + b)
  {
    assert multiset(front + [last]) == multiset(front) + multiset{last};
    assert multiset(a + [last] + b) == multiset(a + b) + multiset{last};
    forall x ensures multiset(front)[x] == multiset(a + b)[x] {
      assert (multiset(front) + multiset{last})[x] == (multiset(a + b) + multiset{last})[x];
    }
  }

  lemma SameElements(s: seq<string>, t: seq<string>)
    requires NoDup(s) && NoDup(t) && ToSet(s) == ToSet(t)
    ensures multiset(s) == multiset(t)
  {
    NoDupMultiset(s);
    NoDupMultiset(t);
    forall x ensures multiset(s)[x] == multiset(t)[x] {
      assert x in s <==> x in ToSet(s);
      assert x in t <==> x in ToSet(t);
      assert x in multiset(s) <==> x in s;
      assert x in multiset(t) <==> x in t;
    }
  }

  /** For any number of layers, the round trip returns a permutation of them. */
  lemma RoundTripPermutes<L(!new)>(inputs: Inputs<L>, parsed: Inputs<L>)
    requires RoundTrips(inputs, parsed)
    ensures multiset(parsed.layers) == multiset(inputs.layers) && parsed.base == inputs.base
  {
    var m := Printed(inputs);
    var keys :| Enumerates(keys, m.Keys - {"base"}) && (forall k :: k in keys ==> k in m) && parsed.layers == Picked(m, keys);
    InOrderEnumerates(inputs);
    SameElements(keys, InOrder(|inputs.layers|));
    PickedPermutes(m, keys, InOrder(|inputs.layers|));
  }

  /** Up to nine layers the string order is the layer order. */
  lemma NineInOrder(n: nat)
    requires n <= 9
    ensures Sorted(InOrder(n))
  {
    forall i, j | 0 <= i < j < n ensures Leq(InOrder(n)[i], InOrder(n)[j]) {
      LeqCommonPrefix(PREFIX, Decimal(i + 1), Decimal(j + 1));
      DigitCode(i + 1);
      DigitCode(j + 1);
    }
  }

  lemma IdentityUpToNine<L(!new)>(inputs: Inputs<L>, parsed: Inputs<L>)
    requires RoundTrips(inputs, parsed) && |inputs.layers| <= 9
    ensures parsed == inputs
  {
    var m := Printed(inputs);
    var keys :| Enumerates(keys, m.Keys - {"base"}) && (forall k :: k in keys ==> k in m) && parsed.layers == Picked(m, keys);
    InOrderEnumerates(inputs);
    NineInOrder(|inputs.layers|);
    EnumerationUnique(keys, InOrder(|inputs.layers|), m.Keys - {"base"});
  }

  lemma TenLeq(d: string)
    requires d != [] && '1' <= d[0] && (d[0] == '1' ==> |d| >= 2 && '0' <= d[1])
    ensures Leq("10", d)
  {
    assert "10"[1..] == "0" && "0"[1..] == "";
    if |d| >= 2 {
      assert d[1..][0] == d[1];
    }
  }

  /** Among the printed keys only "layer.1" comes before "layer.10". */
  lemma TenIsSecond(k: nat)
    requires k >= 2
    ensures Leq(LayerKey(10), LayerKey(k))
  {
    assert Decimal(10) == Decimal(1) + "0" == "10";
    LeqCommonPrefix(PREFIX, "10", Decimal(k));
    var d := Decimal(k);
    assert d[0] in DIGITS && d[0] != '0';
    if k < 10 {
      DigitCode(k);
    } else {
      assert d[1] in DIGITS;
    }
    TenLeq(d);
  }

  lemma OneBeforeTen()
    ensures Leq(LayerKey(1), LayerKey(10)) && LayerKey(1) != LayerKey(10)
  {
    assert Decimal(1) == "1" && Decimal(10) == Decimal(1) + "0" == "10";
    LeqCommonPrefix(PREFIX, "1", "10");
    assert Leq("1"[1..], "10"[1..]);
    assert |LayerKey(1)| != |LayerKey(10)|;
  }

  /** With ten or more layers, the tenth one ends up in second place. */
  lemma TenthMoves<L(!new)>(inputs: Inputs<L>, parsed: Inputs<L>)
    requires RoundTrips(inputs, parsed) && |inputs.layers| >= 10
    ensures |parsed.layers| == |inputs.layers| && parsed.layers[1] == inputs.layers[9]
  {
    var m := Printed(inputs);
    var keys :| Enumerates(keys, m.Keys - {"base"}) && (forall k :: k in keys ==> k in m) && parsed.layers == Picked(m, keys);
    RoundTripPermutes(inputs, parsed);
    assert |multiset(parsed.layers)| == |multiset(inputs.layers)|;
    SecondKey(inputs, keys);
    PrintedKeys(inputs, LayerKey(10));
  }

  lemma SecondKey<L>(inputs: Inputs<L>, keys: seq<string>)
    requires inputs.base.Some? && |inputs.layers| >= 10 && Enumerates(keys, Printed(inputs).Keys - {"base"})
    ensures |keys| >= 2 && keys[1] == LayerKey(10)
  {
    PrintedKeys(inputs, LayerKey(1));
    PrintedKeys(inputs, LayerKey(10));
    assert LayerKey(1) in ToSet(keys) && LayerKey(10) in ToSet(keys);
    var p :| 0 <= p < |keys| && keys[p] == LayerKey(10);
    var q :| 0 <= q < |keys| && keys[q] == LayerKey(1);
    OneBeforeTen();
    forall i | 0 <= i < p ensures keys[i] == LayerKey(1) {
      assert keys[i] in ToSet(keys);
      OnlyOneBefore(inputs, keys[i]);
      if keys[i] != LayerKey(1) {
        LeqAntisymmetric(keys[i], keys[p]);
      }
    }
    FirstBeforeTenth(keys, p, q);
  }

  lemma OnlyOneBefore<L>(inputs: Inputs<L>, key: string)
    requires inputs.base.Some? && key in Printed(inputs) && key != "base"
    ensures key == LayerKey(1) || Leq(LayerKey(10), key)
  {
    PrintedKeys(inputs, key);
    var k :| 1 <= k <= |inputs.layers| && LayerKey(k) == key;
    if k >= 2 {
      TenIsSecond(k);
    }
  }

  lemma FirstBeforeTenth(keys: seq<string>, p: nat, q: nat)
    requires Sorted(keys) && NoDup(keys) && p < |keys| && q < |keys| && keys[p] == LayerKey(10) && keys[q] == LayerKey(1)
    requires Leq(keys[q], keys[p]) && keys[p] != keys[q]
    requires forall i :: 0 <= i < p ==> keys[i] == LayerKey(1)
    ensures p == 1
  {
    if p < q {
      LeqAntisymmetric(keys[p], keys[q]);
    }
    assert |keys| >= 2 ==> keys[0] != keys[1];
  }

  /** For distinct layers the round trip is the identity exactly up to nine of them. */
  lemma IdentityExactly<L(!new)>(inputs: Inputs<L>, parsed: Inputs<L>)
    requires RoundTrips(inputs, parsed) && NoDup(inputs.layers)
    ensures parsed == inputs <==> |inputs.layers| <= 9
  {
    if |inputs.layers| <= 9 {
      IdentityUpToNine(inputs, parsed);
    } else {
      TenthMoves(inputs, parsed);
      assert inputs.layers[1] != inputs.layers[9];
    }
  }
}
