/**
 From an osbuild v2 result to Koji's RPM list: conversion to the v1 shape
 (internal/osbuild1/result.go), the JSON round trip through the job queue, and
 `OSBuildStagesToRPMs` (internal/rpmmd/metadata.go).
 */
module OsbuildResult {
  import opened Wrappers
  import opened Strings

  const RPM := "org.osbuild.rpm"
  const OSTREE := "org.osbuild.ostree.commit"

  datatype Package = Package(
    name: string, version: string, release: string, epoch: Option<string>, arch: string,
    sigMD5: string, sigPGP: string, sigGPG: string)

  /**
   The JSON texts that occur as stage metadata. `Bytes` is a JSON string holding the
   base64 form of another text: neither `RawStageMetadata` type has a marshaller, so
   Go encodes it as a byte slice.
   */
  datatype Json = JNull | JRpm(packages: seq<Package>) | JOstree(commit: string) | Bytes(inner: Json)

  // ----- osbuild v2 -----

  datatype StageV2 = StageV2(stageType: string, output: string, success: bool)

  datatype MetadataV2 = RpmV2(packages: seq<Package>) | OstreeV2(commit: string) | RawV2(raw: Json)

  type PipelineMetadata = map<string, MetadataV2>

  datatype ResultV2 = ResultV2(success: bool, log: map<string, seq<StageV2>>, metadata: map<string, PipelineMetadata>)

  /** Decoding into an RPM metadata struct; unknown fields are ignored, a string is an error. */
  function DecodeRpm(j: Json): Option<seq<Package>> {
    match j
    case JRpm(p) => Some(p)
    case Bytes(_) => None
    case _ => Some([])
  }

  function DecodeOstree(j: Json): Option<string> {
    match j
    case JOstree(c) => Some(c)
    case Bytes(_) => None
    case _ => Some("")
  }

  /** `osbuild2.PipelineMetadata.UnmarshalJSON`, entry by entry. */
  function DecodeV2Entry(name: string, j: Json): Option<MetadataV2> {
    if name == RPM then
      match DecodeRpm(j) case Some(p) => Some(RpmV2(p)) case None => None
    else if name == OSTREE then
      match DecodeOstree(j) case Some(c) => Some(OstreeV2(c)) case None => None
    else Some(RawV2(j))
  }

  /** What the v2 decoder guarantees: the kind of metadata is decided by the stage type. */
  predicate WellTyped(m: PipelineMetadata) {
    forall t :: t in m ==> (m[t].RpmV2? <==> t == RPM) && (m[t].OstreeV2? <==> t == OSTREE)
  }

  predicate AllWellTyped(r: ResultV2) {
    forall p :: p in r.metadata ==> WellTyped(r.metadata[p])
  }

  /** A decoded pipeline is well typed and holds what was encoded. */
  lemma DecodedIsWellTyped(raw: map<string, Json>, m: PipelineMetadata)
    requires m.Keys == raw.Keys
    requires forall t :: t in raw ==> DecodeV2Entry(t, raw[t]) == Some(m[t])
    ensures WellTyped(m)
    ensures forall t :: t in raw ==>
              && (t == RPM && raw[t].JRpm? ==> m[t] == RpmV2(raw[t].packages))
              && (t == OSTREE && raw[t].JOstree? ==> m[t] == OstreeV2(raw[t].commit))
              && (t != RPM && t != OSTREE ==> m[t] == RawV2(raw[t]))
  {
    forall t | t in m ensures (m[t].RpmV2? <==> t == RPM) && (m[t].OstreeV2? <==> t == OSTREE) {
      assert t in raw;
      assert |RPM| != |OSTREE|;
    }
  }

  // ----- osbuild v1 -----

  /** Go distinguishes a metadata value from a pointer to one. */
  datatype MetadataV1 =
    | Nil
    | RpmValue(packages: seq<Package>)
    | RpmPointer(packages: seq<Package>)
    | OstreeValue(commit: string)
    | OstreePointer(commit: string)
    | RawV1(raw: Json)

  datatype StageV1 = StageV1(name: string, success: bool, output: string, metadata: MetadataV1)

  function MetadataAt(r: ResultV2, pipeline: string, stageType: string): Option<MetadataV2> {
    if pipeline in r.metadata && stageType in r.metadata[pipeline] then Some(r.metadata[pipeline][stageType]) else None
  }

  /** `convertStageMetadata`. */
  function Convert(m: Option<MetadataV2>): MetadataV1 {
    match m
    case None => Nil
    case Some(RpmV2(p)) => RpmValue(p)
    case Some(OstreeV2(c)) => OstreeValue(c)
    case Some(RawV2(j)) => RawV1(Bytes(j))
  }

  function StageName(pipeline: string, idx: nat, stageType: string): string {
    pipeline + ":" + Decimal(idx) + "-" + stageType
  }

  function ConvertStage(r: ResultV2, pipeline: string, idx: nat, s: StageV2): StageV1 {
    StageV1(StageName(pipeline, idx, s.stageType), s.success, s.output, Convert(MetadataAt(r, pipeline, s.stageType)))
  }

  /** The stages of one pipeline, in order. */
  function PipelineStages(r: ResultV2, pipeline: string, stages: seq<StageV2>): (v1: seq<StageV1>)
    ensures |v1| == |stages| && forall i :: 0 <= i < |stages| ==> v1[i] == ConvertStage(r, pipeline, i, stages[i])
  {
    seq(|stages|, i requires 0 <= i < |stages| => ConvertStage(r, pipeline, i, stages[i]))
  }

  /** The pipelines one after the other, in the order of `names`. */
  function Flatten(r: ResultV2, names: seq<string>): seq<StageV1>
    requires forall n :: n in names ==> n in r.log
  {
    if names == [] then []
    else Flatten(r, names[..|names| - 1]) + PipelineStages(r, names[|names| - 1], r.log[names[|names| - 1]])
  }

  /** The inner loop of `fromV2`. */
  method ConvertPipeline(r: ResultV2, name: string, stages: seq<StageV2>) returns (converted: seq<StageV1>)
    ensures converted == PipelineStages(r, name, stages)
  {
    converted := [];
    for idx := 0 to |stages|
      invariant |converted| == idx
      invariant forall i :: 0 <= i < idx ==> converted[i] == ConvertStage(r, name, i, stages[i])
    {
      converted := converted + [ConvertStage(r, name, idx, stages[idx])];
    }
  }

  /**
   `fromV2`: the log map is visited in any order and sorted afterwards. Whatever the
   order, the result lists the pipelines by increasing name.
   */
  method FromV2(r: ResultV2) returns (stages: seq<StageV1>)
    ensures exists names :: Enumerates(names, r.log.Keys)
    ensures forall names :: Enumerates(names, r.log.Keys) ==>
              (forall n :: n in names ==> n in r.log) && stages == Flatten(r, names)
  {
    var sorted := SortedKeys(r.log.Keys);
    forall n | n in sorted ensures n in r.log {
      EnumeratesMember(sorted, r.log.Keys, n);
    }
    stages := [];
    for k := 0 to |sorted|
      invariant stages == Flatten(r, sorted[..k])
    {
      var name := sorted[k];
      var converted := ConvertPipeline(r, name, r.log[name]);
      stages := stages + converted;
      assert sorted[..k + 1][..k] == sorted[..k];
    }
    assert sorted[..|sorted|] == sorted;
    forall names | Enumerates(names, r.log.Keys) ensures names == sorted {
      EnumerationUnique(names, sorted, r.log.Keys);
    }
  }

  lemma WithinPrefix<T>(a: seq<T>, b: seq<T>, s: seq<T>, i: nat)
    requires a + b <= s && i < |b|
    ensures |a| + i < |s| && s[|a| + i] == b[i]
  {
    assert (a + b)[|a| + i] == b[i];
  }

  /** The stages of pipeline `k` come right after those of the pipelines before it. */
  lemma {:induction false} PipelineFollows(r: ResultV2, names: seq<string>, k: nat)
    requires (forall n :: n in names ==> n in r.log) && k < |names|
    ensures Flatten(r, names[..k]) + PipelineStages(r, names[k], r.log[names[k]]) <= Flatten(r, names)
  {
    var front := names[..|names| - 1];
    if k < |names| - 1 {
      PipelineFollows(r, front, k);
      assert front[..k] == names[..k];
    } else {
      assert front == names[..k];
    }
  }

  /** Every stage is found at its place, with its own success and output, under its name. */
  lemma StageCopied(r: ResultV2, names: seq<string>, k: nat, i: nat)
    requires (forall n :: n in names ==> n in r.log) && k < |names| && i < |r.log[names[k]]|
    ensures var at := |Flatten(r, names[..k])| + i;
            var s := r.log[names[k]][i];
            && at < |Flatten(r, names)|
            && Flatten(r, names)[at].name == names[k] + ":" + Decimal(i) + "-" + s.stageType
            && Flatten(r, names)[at].success == s.success && Flatten(r, names)[at].output == s.output
  {
    PipelineFollows(r, names, k);
    WithinPrefix(Flatten(r, names[..k]), PipelineStages(r, names[k], r.log[names[k]]), Flatten(r, names), i);
  }

  // ----- stage names -----

  /** Stage names identify pipeline and position when pipeline names have no colon. */
  lemma StageNamesIdentify(p: string, i: nat, s: string, q: string, j: nat, t: string)
    requires ':' !in p && ':' !in q && StageName(p, i, s) == StageName(q, j, t)
    ensures p == q && i == j && s == t
  {
    var x, y := Decimal(i) + "-" + s, Decimal(j) + "-" + t;
    assert StageName(p, i, s) == p + [':'] + x;
    assert StageName(q, j, t) == q + [':'] + y;
    SplitAtSeparator(p, q, ':', x, y);
    assert '-' !in DIGITS;
    assert x == Decimal(i) + ['-'] + s && y == Decimal(j) + ['-'] + t;
    SplitAtSeparator(Decimal(i), Decimal(j), '-', s, t);
    DecimalInjective(i, j);
  }

  /** With a colon in a pipeline name two different stages may share a name. */
  lemma StageNamesCollide()
    ensures StageName("a", 0, "b:1-t") == StageName("a:0-b", 1, "t")
  {
    assert Decimal(0) == "0" && Decimal(1) == "1";
    assert "a" + ":" + "0" + "-" + "b:1-t" == "a:0-b:1-t";
    assert "a:0-b" + ":" + "1" + "-" + "t" == "a:0-b:1-t";
  }

  /** The names of a flattened result are pairwise distinct. */
  lemma {:induction false} NamesDistinct(r: ResultV2, names: seq<string>)
    requires NoDup(names) && forall n :: n in names ==> n in r.log && ':' !in n
    ensures DistinctStages(Flatten(r, names))
  {
    if names != [] {
      var front, last := names[..|names| - 1], names[|names| - 1];
      NamesDistinct(r, front);
      var head, tail := Flatten(r, front), PipelineStages(r, last, r.log[last]);
      forall a, j | 0 <= a < |head| && 0 <= j < |tail| ensures head[a].name != tail[j].name {
        EarlierPipelineDistinct(r, front, last, a, j);
      }
      forall i, j | 0 <= i < j < |tail| ensures tail[i].name != tail[j].name {
        SamePipelineDistinct(r, last, i, j);
      }
      DistinctConcat(head, tail);
    }
  }

  predicate DistinctStages(stages: seq<StageV1>) {
    forall a, b :: 0 <= a < b < |stages| ==> stages[a].name != stages[b].name
  }

  lemma DistinctConcat(head: seq<StageV1>, tail: seq<StageV1>)
    requires DistinctStages(head) && DistinctStages(tail)
    requires forall a, j :: 0 <= a < |head| && 0 <= j < |tail| ==> head[a].name != tail[j].name
    ensures DistinctStages(head + tail)
  {
  }

  lemma SamePipelineDistinct(r: ResultV2, pipeline: string, i: int, j: int)
    requires pipeline in r.log && ':' !in pipeline && 0 <= i < j < |r.log[pipeline]|
    ensures ConvertStage(r, pipeline, i, r.log[pipeline][i]).name != ConvertStage(r, pipeline, j, r.log[pipeline][j]).name
  {
    DifferentPositions(pipeline, i, r.log[pipeline][i].stageType, j, r.log[pipeline][j].stageType);
  }

  lemma EarlierPipelineDistinct(r: ResultV2, front: seq<string>, last: string, a: int, j: int)
    requires (forall n :: n in front ==> n in r.log && ':' !in n) && last !in front && last in r.log && ':' !in last
    requires 0 <= a < |Flatten(r, front)| && 0 <= j < |r.log[last]|
    ensures Flatten(r, front)[a].name != ConvertStage(r, last, j, r.log[last][j]).name
  {
    NameOrigin(r, front, a);
    var n, i :| n in front && 0 <= i < |r.log[n]| && Flatten(r, front)[a] == ConvertStage(r, n, i, r.log[n][i]);
    DifferentPipelines(n, i, r.log[n][i].stageType, last, j, r.log[last][j].stageType);
  }

  lemma DifferentPipelines(p: string, i: nat, s: string, q: string, j: nat, t: string)
    requires ':' !in p && ':' !in q && p != q
    ensures StageName(p, i, s) != StageName(q, j, t)
  {
    if StageName(p, i, s) == StageName(q, j, t) {
      StageNamesIdentify(p, i, s, q, j, t);
    }
  }

  lemma DifferentPositions(p: string, i: nat, s: string, j: nat, t: string)
    requires ':' !in p && i != j
    ensures StageName(p, i, s) != StageName(p, j, t)
  {
    if StageName(p, i, s) == StageName(p, j, t) {
      StageNamesIdentify(p, i, s, p, j, t);
    }
  }

  lemma {:induction false} NameOrigin(r: ResultV2, names: seq<string>, a: int)
    requires (forall n :: n in names ==> n in r.log) && 0 <= a < |Flatten(r, names)|
    ensures exists n, i :: n in names && 0 <= i < |r.log[n]| && Flatten(r, names)[a] == ConvertStage(r, n, i, r.log[n][i])
  {
    var front, last := names[..|names| - 1], names[|names| - 1];
    var head := Flatten(r, front);
    if a < |head| {
      NameOrigin(r, front, a);
      var n, i :| n in front && 0 <= i < |r.log[n]| && head[a] == ConvertStage(r, n, i, r.log[n][i]);
      assert n in names;
    } else {
      var i := a - |head|;
      assert last in names && Flatten(r, names)[a] == ConvertStage(r, last, i, r.log[last][i]);
    }
  }

  // ----- through the queue and back -----

  function Encode(m: MetadataV1): Json {
    match m
    case Nil => JNull
    case RpmValue(p) => JRpm(p)
    case RpmPointer(p) => JRpm(p)
    case OstreeValue(c) => JOstree(c)
    case OstreePointer(c) => JOstree(c)
    case RawV1(j) => Bytes(j)
  }

  /** `StageResult.UnmarshalJSON`: the kind is decided by the suffix of the stage name. */
  function Redecode(s: StageV1): Option<StageV1> {
    var j := Encode(s.metadata);
    if HasSuffix(s.name, RPM) then
      match DecodeRpm(j) case Some(p) => Some(s.(metadata := RpmPointer(p))) case None => None
    else if HasSuffix(s.name, OSTREE) then
      match DecodeOstree(j) case Some(c) => Some(s.(metadata := OstreePointer(c))) case None => None
    else Some(s.(metadata := RawV1(j)))
  }

  /** Decoding a list fails as soon as one stage does. */
  function RedecodeAll(stages: seq<StageV1>): Option<seq<StageV1>> {
    if stages == [] then Some([])
    else
      var front := RedecodeAll(stages[..|stages| - 1]);
      var last := Redecode(stages[|stages| - 1]);
      if front.Some? && last.Some? then Some(front.value + [last.value]) else None
  }

  datatype Rpm = Rpm(name: string, epoch: Option<string>, version: string, release: string, arch: string,
                     sigmd5: string, signature: Option<string>)

  function Signature(p: Package): Option<string> {
    if p.sigGPG != "" then Some(p.sigGPG) else if p.sigPGP != "" then Some(p.sigPGP) else None
  }

  function ToRpm(p: Package): Rpm {
    Rpm(p.name, p.epoch, p.version, p.release, p.arch, p.sigMD5, Signature(p))
  }

  function ToRpms(packages: seq<Package>): (r: seq<Rpm>)
    ensures |r| == |packages| && forall i :: 0 <= i < |r| ==> r[i] == ToRpm(packages[i])
  {
    seq(|packages|, i requires 0 <= i < |packages| => ToRpm(packages[i]))
  }

  /** Only a pointer to RPM metadata matches the type switch. */
  function StageRpms(m: MetadataV1): seq<Rpm> {
    if m.RpmPointer? then ToRpms(m.packages) else []
  }

  function StagesRpms(stages: seq<StageV1>): seq<Rpm> {
    if stages == [] then [] else StagesRpms(stages[..|stages| - 1]) + StageRpms(stages[|stages| - 1].metadata)
  }

  /** The packages of all pointer metadata, in order. */
  function StagePackages(m: MetadataV1): seq<Package> {
    if m.RpmPointer? then m.packages else []
  }

  function StagesPackages(stages: seq<StageV1>): seq<Package> {
    if stages == [] then [] else StagesPackages(stages[..|stages| - 1]) + StagePackages(stages[|stages| - 1].metadata)
  }

  /** The entry of one package: its fields, and the GPG signature, or else the PGP one, or else none. */
  predicate Lists(rpm: Rpm, p: Package) {
    && rpm.name == p.name && rpm.epoch == p.epoch && rpm.version == p.version && rpm.release == p.release
    && rpm.arch == p.arch && rpm.sigmd5 == p.sigMD5
    && (p.sigGPG != "" ==> rpm.signature == Some(p.sigGPG))
    && (p.sigGPG == "" && p.sigPGP != "" ==> rpm.signature == Some(p.sigPGP))
    && (p.sigGPG == "" && p.sigPGP == "" ==> rpm.signature == None)
  }

  /** One entry per package, in the same order. */
  predicate ListsAll(rpms: seq<Rpm>, packages: seq<Package>) {
    |rpms| == |packages| && forall i :: 0 <= i < |packages| ==> Lists(rpms[i], packages[i])
  }

  lemma {:induction false} RpmsListPackages(stages: seq<StageV1>)
    ensures ListsAll(StagesRpms(stages), StagesPackages(stages))
  {
    if stages != [] {
      RpmsListPackages(stages[..|stages| - 1]);
    }
  }

  /** The inner loop of `OSBuildStagesToRPMs`. */
  method AppendRpms(before: seq<Rpm>, packages: seq<Package>) returns (rpms: seq<Rpm>)
    ensures rpms == before + ToRpms(packages)
  {
    rpms := before;
    for i := 0 to |packages|
      invariant |rpms| == |before| + i && rpms[..|before|] == before
      invariant forall j :: 0 <= j < i ==> rpms[|before| + j] == ToRpm(packages[j])
    {
      rpms := rpms + [ToRpm(packages[i])];
    }
  }

  /** The outer loop of `OSBuildStagesToRPMs`. */
  method OSBuildStagesToRPMs(stages: seq<StageV1>) returns (rpms: seq<Rpm>)
    ensures rpms == StagesRpms(stages) && ListsAll(rpms, StagesPackages(stages))
  {
    RpmsListPackages(stages);
    rpms := [];
    for k := 0 to |stages|
      invariant rpms == StagesRpms(stages[..k])
    {
      assert stages[..k + 1][..k] == stages[..k];
      var m := stages[k].metadata;
      if m.RpmPointer? {
        rpms := AppendRpms(rpms, m.packages);
      }
    }
    assert stages[..|stages|] == stages;
  }

  // ----- conservation of packages -----

  /** The packages v2 attached to one stage. */
  function Attached(r: ResultV2, pipeline: string, s: StageV2): seq<Package> {
    if s.stageType == "org.osbuild.rpm" && pipeline in r.metadata && s.stageType in r.metadata[pipeline] && r.metadata[pipeline][s.stageType].RpmV2?
    then r.metadata[pipeline][s.stageType].packages
    else []
  }

  function PipelinePackages(r: ResultV2, pipeline: string, stages: seq<StageV2>): seq<Package> {
    if stages == [] then []
    else PipelinePackages(r, pipeline, stages[..|stages| - 1]) + Attached(r, pipeline, stages[|stages| - 1])
  }

  /** All packages of all `org.osbuild.rpm` stages, by pipeline and then by stage. */
  function AttachedPackages(r: ResultV2, names: seq<string>): seq<Package>
    requires forall n :: n in names ==> n in r.log
  {
    if names == [] then []
    else AttachedPackages(r, names[..|names| - 1]) + PipelinePackages(r, names[|names| - 1], r.log[names[|names| - 1]])
  }

  /** A stage type that only ends like one of the two known ones. */
  predicate LookAlike(t: string) {
    (HasSuffix(t, RPM) && t != RPM) || (HasSuffix(t, OSTREE) && t != OSTREE)
  }

  /** No stage of a look-alike type has metadata. */
  predicate Decodable(r: ResultV2, pipeline: string, s: StageV2) {
    LookAlike(s.stageType) ==> !(pipeline in r.metadata && s.stageType in r.metadata[pipeline])
  }

  lemma SuffixOfName(p: string, i: nat, t: string)
    ensures HasSuffix(StageName(p, i, t), RPM) <==> HasSuffix(t, RPM)
    ensures HasSuffix(StageName(p, i, t), OSTREE) <==> HasSuffix(t, OSTREE)
    ensures !(HasSuffix(t, RPM) && HasSuffix(t, OSTREE))
  {
    var head := p + ":" + Decimal(i);
    assert StageName(p, i, t) == head + ['-'] + t;
    assert '-' !in RPM && '-' !in OSTREE;
    SuffixAfterSeparator(head, '-', t, RPM);
    SuffixAfterSeparator(head, '-', t, OSTREE);
    if HasSuffix(t, RPM) {
      assert t[|t| - 1] == RPM[|RPM| - 1] == 'm';
    }
    assert OSTREE[|OSTREE| - 1] == 't';
    assert HasSuffix(t, OSTREE) ==> t[|t| - 1] == t[|t| - |OSTREE|..][|OSTREE| - 1];
    assert HasSuffix(t, RPM) ==> t[|t| - 1] == t[|t| - |RPM|..][|RPM| - 1];
  }

  /** Decoding keeps name, success and output of a stage. */
  lemma RedecodeKeeps(s: StageV1)
    ensures Redecode(s).Some? ==> Redecode(s).value.name == s.name && Redecode(s).value.success == s.success && Redecode(s).value.output == s.output
  {
  }

  /** A commit attached to an ostree stage is found again after the round trip. */
  lemma CommitConserved(r: ResultV2, pipeline: string, idx: nat, s: StageV2)
    requires s.stageType == "org.osbuild.ostree.commit" && pipeline in r.metadata && s.stageType in r.metadata[pipeline]
    requires r.metadata[pipeline][s.stageType].OstreeV2?
    ensures var m := Redecode(ConvertStage(r, pipeline, idx, s));
            m.Some? && m.value.metadata == OstreePointer(r.metadata[pipeline][s.stageType].commit)
  {
    SuffixOfName(pipeline, idx, OSTREE);
    assert OSTREE[0..] == OSTREE;
  }

  /** A stage whose type ends like the RPM stage. */
  lemma RpmStage(r: ResultV2, pipeline: string, idx: nat, s: StageV2)
    requires HasSuffix(s.stageType, RPM) && (pipeline in r.metadata ==> WellTyped(r.metadata[pipeline]))
    ensures Redecode(ConvertStage(r, pipeline, idx, s)).Some? <==> Decodable(r, pipeline, s)
    ensures Decodable(r, pipeline, s) ==>
              StagePackages(Redecode(ConvertStage(r, pipeline, idx, s)).value.metadata) == Attached(r, pipeline, s)
  {
    SuffixOfName(pipeline, idx, s.stageType);
    assert RPM[0..] == RPM;
  }

  /** Any other stage: the RPM list finds nothing in it. */
  lemma OtherStage(r: ResultV2, pipeline: string, idx: nat, s: StageV2)
    requires !HasSuffix(s.stageType, RPM) && (pipeline in r.metadata ==> WellTyped(r.metadata[pipeline]))
    ensures Redecode(ConvertStage(r, pipeline, idx, s)).Some? <==> Decodable(r, pipeline, s)
    ensures Redecode(ConvertStage(r, pipeline, idx, s)).Some? ==>
              !Redecode(ConvertStage(r, pipeline, idx, s)).value.metadata.RpmPointer?
  {
    SuffixOfName(pipeline, idx, s.stageType);
    assert OSTREE[0..] == OSTREE;
  }

  /** One stage survives the round trip exactly when it is decodable, and then keeps its packages. */
  lemma StageRoundTrip(r: ResultV2, pipeline: string, idx: nat, s: StageV2)
    requires pipeline in r.metadata ==> WellTyped(r.metadata[pipeline])
    ensures Redecode(ConvertStage(r, pipeline, idx, s)).Some? <==> Decodable(r, pipeline, s)
    ensures Decodable(r, pipeline, s) ==>
              StagePackages(Redecode(ConvertStage(r, pipeline, idx, s)).value.metadata) == Attached(r, pipeline, s)
  {
    if HasSuffix(s.stageType, RPM) {
      RpmStage(r, pipeline, idx, s);
    } else {
      OtherStage(r, pipeline, idx, s);
      assert RPM[0..] == RPM && s.stageType != RPM;
    }
  }

  /** A stage whose type only ends like the RPM stage, with metadata: the whole result fails to decode. */
  lemma LookAlikeFails(raw: Json)
    ensures var t := "x.org.osbuild.rpm";
            var r := ResultV2(true, map["p" := [StageV2(t, "", true)]], map["p" := map[t := RawV2(raw)]]);
            AllWellTyped(r) && RedecodeAll(Flatten(r, ["p"])) == None
  {
    var t := "x.org.osbuild.rpm";
    var r := ResultV2(true, map["p" := [StageV2(t, "", true)]], map["p" := map[t := RawV2(raw)]]);
    assert t[|t| - |RPM|..] == RPM && |t| != |RPM| && |t| != |OSTREE|;
    assert LookAlike(t) && MetadataAt(r, "p", t) == Some(RawV2(raw));
    assert !Decodable(r, "p", r.log["p"][0]);
    PackagesConserved(r, ["p"]);
  }

  lemma {:induction false} RedecodeConcat(a: seq<StageV1>, b: seq<StageV1>)
    ensures RedecodeAll(a + b).Some? <==> RedecodeAll(a).Some? && RedecodeAll(b).Some?
    ensures RedecodeAll(a + b).Some? ==> RedecodeAll(a + b).value == RedecodeAll(a).value + RedecodeAll(b).value
  {
    if b == [] {
      assert a + b == a;
    } else {
      RedecodeConcat(a, b[..|b| - 1]);
      assert (a + b)[..|a + b| - 1] == a + b[..|b| - 1];
    }
  }

  lemma PackagesSnoc(s: seq<StageV1>, e: StageV1)
    ensures StagesPackages(s + [e]) == StagesPackages(s) + StagePackages(e.metadata)
  {
    assert (s + [e])[..|s|] == s;
  }

  lemma RedecodeSnoc(s: seq<StageV1>, e: StageV1)
    ensures RedecodeAll(s + [e]) ==
            if RedecodeAll(s).Some? && Redecode(e).Some? then Some(RedecodeAll(s).value + [Redecode(e).value]) else None
  {
    assert (s + [e])[..|s|] == s;
  }

  lemma Associative<T>(x: seq<T>, y: seq<T>, z: seq<T>)
    ensures (x + y) + z == x + (y + z)
  {
  }

  lemma {:induction false} PackagesConcat(a: seq<StageV1>, b: seq<StageV1>)
    ensures StagesPackages(a + b) == StagesPackages(a) + StagesPackages(b)
  {
    if b == [] {
      assert a + b == a;
    } else {
      var front, last := b[..|b| - 1], b[|b| - 1];
      var packages := StagePackages(last.metadata);
      assert StagesPackages(a + b) == StagesPackages(a + front) + packages by {
        assert a + b == (a + front) + [last];
        PackagesSnoc(a + front, last);
      }
      assert StagesPackages(b) == StagesPackages(front) + packages;
      PackagesConcat(a, front);
      Associative(StagesPackages(a), StagesPackages(front), packages);
    }
  }

  predicate PipelineDecodable(r: ResultV2, pipeline: string, stages: seq<StageV2>) {
    forall i :: 0 <= i < |stages| ==> Decodable(r, pipeline, stages[i])
  }

  lemma {:induction false} PipelineRoundTrip(r: ResultV2, pipeline: string, stages: seq<StageV2>)
    requires pipeline in r.metadata ==> WellTyped(r.metadata[pipeline])
    ensures RedecodeAll(PipelineStages(r, pipeline, stages)).Some? <==> PipelineDecodable(r, pipeline, stages)
    ensures PipelineDecodable(r, pipeline, stages) ==>
              StagesPackages(RedecodeAll(PipelineStages(r, pipeline, stages)).value) == PipelinePackages(r, pipeline, stages)
  {
    if stages == [] {
      assert PipelineStages(r, pipeline, stages) == [];
    } else {
      var n := |stages| - 1;
      var front, last := PipelineStages(r, pipeline, stages[..n]), ConvertStage(r, pipeline, n, stages[n]);
      PipelineRoundTrip(r, pipeline, stages[..n]);
      PipelineSnoc(r, pipeline, stages);
      DecodableSnoc(r, pipeline, stages);
      StageRoundTrip(r, pipeline, n, stages[n]);
      RedecodeSnoc(front, last);
      if RedecodeAll(front).Some? && Redecode(last).Some? {
        PackagesSnoc(RedecodeAll(front).value, Redecode(last).value);
      }
    }
  }

  /** The last stage of a pipeline, split off. */
  lemma PipelineSnoc(r: ResultV2, pipeline: string, stages: seq<StageV2>)
    requires stages != []
    ensures var n := |stages| - 1;
            PipelineStages(r, pipeline, stages) ==
              PipelineStages(r, pipeline, stages[..n]) + [ConvertStage(r, pipeline, n, stages[n])]
  {
  }

  lemma DecodableSnoc(r: ResultV2, pipeline: string, stages: seq<StageV2>)
    requires stages != []
    ensures var n := |stages| - 1;
            PipelineDecodable(r, pipeline, stages) <==>
              PipelineDecodable(r, pipeline, stages[..n]) && Decodable(r, pipeline, stages[n])
  {
    var n := |stages| - 1;
    assert forall i :: 0 <= i < n ==> stages[..n][i] == stages[i];
  }

  /** The stages of the last pipeline, behind those of the others. */
  lemma FlattenSnoc(r: ResultV2, names: seq<string>, n: string)
    requires n in r.log && forall m :: m in names ==> m in r.log
    ensures forall m :: m in names + [n] ==> m in r.log
    ensures Flatten(r, names + [n]) == Flatten(r, names) + PipelineStages(r, n, r.log[n])
    ensures AttachedPackages(r, names + [n]) == AttachedPackages(r, names) + PipelinePackages(r, n, r.log[n])
  {
    assert (names + [n])[..|names|] == names;
  }

  lemma {:induction false} DecodesExactly(r: ResultV2, names: seq<string>)
    requires AllWellTyped(r) && forall n :: n in names ==> n in r.log
    ensures RedecodeAll(Flatten(r, names)).Some? <==> forall n :: n in names ==> PipelineDecodable(r, n, r.log[n])
  {
    if names != [] {
      var front, last := names[..|names| - 1], names[|names| - 1];
      assert names == front + [last];
      DecodesExactly(r, front);
      FlattenSnoc(r, front, last);
      PipelineRoundTrip(r, last, r.log[last]);
      RedecodeConcat(Flatten(r, front), PipelineStages(r, last, r.log[last]));
    }
  }

  lemma {:induction false} DecodedPackages(r: ResultV2, names: seq<string>)
    requires AllWellTyped(r) && forall n :: n in names ==> n in r.log
    requires RedecodeAll(Flatten(r, names)).Some?
    ensures StagesPackages(RedecodeAll(Flatten(r, names)).value) == AttachedPackages(r, names)
  {
    if names != [] {
      var front, last := names[..|names| - 1], names[|names| - 1];
      assert names == front + [last];
      FlattenSnoc(r, front, last);
      var a, b := Flatten(r, front), PipelineStages(r, last, r.log[last]);
      RedecodeConcat(a, b);
      DecodedPackages(r, front);
      PipelineRoundTrip(r, last, r.log[last]);
      PackagesConcat(RedecodeAll(a).value, RedecodeAll(b).value);
    }
  }

  /**
   After conversion, encoding and decoding, the RPM list holds exactly the attached
   packages, by pipeline name and stage; the decoding succeeds exactly when no
   look-alike stage carries metadata.
   */
  lemma PackagesConserved(r: ResultV2, names: seq<string>)
    requires AllWellTyped(r) && forall n :: n in names ==> n in r.log
    ensures RedecodeAll(Flatten(r, names)).Some? <==> forall n :: n in names ==> PipelineDecodable(r, n, r.log[n])
    ensures RedecodeAll(Flatten(r, names)).Some? ==>
              && StagesPackages(RedecodeAll(Flatten(r, names)).value) == AttachedPackages(r, names)
              && ListsAll(StagesRpms(RedecodeAll(Flatten(r, names)).value), AttachedPackages(r, names))
  {
    DecodesExactly(r, names);
    if RedecodeAll(Flatten(r, names)).Some? {
      DecodedPackages(r, names);
      RpmsListPackages(RedecodeAll(Flatten(r, names)).value);
    }
  }

  /** Without the round trip nothing is found: the converter stores values, the RPM list wants pointers. */
  lemma {:induction false} NothingBeforeRoundTrip(r: ResultV2, names: seq<string>)
    requires forall n :: n in names ==> n in r.log
    ensures StagesPackages(Flatten(r, names)) == [] && StagesRpms(Flatten(r, names)) == []
  {
    RpmsListPackages(Flatten(r, names));
    if names != [] {
      var front, last := names[..|names| - 1], names[|names| - 1];
      NothingBeforeRoundTrip(r, front);
      NothingInPipeline(r, last, r.log[last]);
      PackagesConcat(Flatten(r, front), PipelineStages(r, last, r.log[last]));
    }
  }

  lemma {:induction false} NothingInPipeline(r: ResultV2, pipeline: string, stages: seq<StageV2>)
    ensures StagesPackages(PipelineStages(r, pipeline, stages)) == []
  {
    if stages != [] {
      var n := |stages| - 1;
      NothingInPipeline(r, pipeline, stages[..n]);
      var last := ConvertStage(r, pipeline, n, stages[n]);
      PipelineSnoc(r, pipeline, stages);
      PackagesSnoc(PipelineStages(r, pipeline, stages[..n]), last);
    }
  }
}
