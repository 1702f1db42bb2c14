/** `PostCompose` of internal/kojiapi/server.go: the job graph of one compose. */
module KojiApi {
  import opened Wrappers
  import opened Strings
  import opened JobQueue
  import opened FsJobQueue
  import opened Koji
  import KojiRuns

  /**
   One requested image. `imageFilename` is the file name of the resolved image
   type, or `None` when the architecture, image type, depsolve or manifest failed.
   */
  datatype ImageRequest = ImageRequest(arch: string, imageFilename: Option<string>)

  /** `knownDistro` says whether the registry has the requested distribution. */
  datatype Request = Request(knownDistro: bool, name: string, version: string, release: string, images: seq<ImageRequest>)

  /** Index of the first dot at or after `from`, or the length. */
  function FirstDot(s: string, from: nat): (i: nat)
    requires from <= |s|
    ensures from <= i <= |s| && (i < |s| ==> s[i] == '.') && forall j :: from <= j < i ==> s[j] != '.'
    decreases |s| - from
  {
    if from == |s| || s[from] == '.' then from else FirstDot(s, from + 1)
  }

  /** The extension: from the first dot on, not counting a leading dot. */
  function SplitExtension(filename: string): (ext: string)
    ensures ext == "" || ext[0] == '.'
    ensures HasSuffix(filename, ext)
    ensures forall j :: 1 <= j < |filename| - |ext| ==> filename[j] != '.'
    ensures filename != "" && filename[0] == '.' ==> |ext| < |filename|
  {
    var from := if filename != "" && filename[0] == '.' then 1 else 0;
    filename[FirstDot(filename, from)..]
  }

  function KojiFilename(r: Request, i: nat): string
    requires i < |r.images| && r.images[i].imageFilename.Some?
  {
    r.name + "-" + r.version + "-" + r.release + "." + r.images[i].arch + SplitExtension(r.images[i].imageFilename.value)
  }

  function Extension(r: Request, i: nat): string
    requires i < |r.images| && r.images[i].imageFilename.Some?
  {
    SplitExtension(r.images[i].imageFilename.value)
  }

  /** A dot-free text ends where the first dot after it is. */
  lemma DotFreeEnd(a: string, x: string)
    requires '.' !in a && (x == "" || x[0] == '.')
    ensures FirstDot(a + x, 0) == |a|
  {
    assert forall k :: 0 <= k < |a| ==> (a + x)[k] == a[k];
    assert x != "" ==> (a + x)[|a|] == '.';
  }

  /** A dot-free text is recognised in front of an extension. */
  lemma SplitAtExtension(a: string, x: string, b: string, y: string)
    requires '.' !in a && '.' !in b && (x == "" || x[0] == '.') && (y == "" || y[0] == '.') && a + x == b + y
    ensures a == b && x == y
  {
    DotFreeEnd(a, x);
    DotFreeEnd(b, y);
    assert a == (a + x)[..|a|] && b == (b + y)[..|b|] && x == (a + x)[|a|..] && y == (b + y)[|b|..];
  }

  /** Two images of one compose get the same Koji file name exactly when arch and extension agree. */
  lemma NamesCollideExactly(r: Request, i: nat, j: nat)
    requires i < |r.images| && r.images[i].imageFilename.Some? && '.' !in r.images[i].arch
    requires j < |r.images| && r.images[j].imageFilename.Some? && '.' !in r.images[j].arch
    ensures KojiFilename(r, i) == KojiFilename(r, j) <==>
            r.images[i].arch == r.images[j].arch && Extension(r, i) == Extension(r, j)
  {
    var p := r.name + "-" + r.version + "-" + r.release + ".";
    var x, y := r.images[i].arch + Extension(r, i), r.images[j].arch + Extension(r, j);
    assert KojiFilename(r, i) == p + x && KojiFilename(r, j) == p + y;
    assert (p + x)[|p|..] == x && (p + y)[|p|..] == y;
    if x == y {
      SplitAtExtension(r.images[i].arch, Extension(r, i), r.images[j].arch, Extension(r, j));
    }
  }

  /** Two images agree in arch and extension. */
  predicate Alike(r: Request, i: nat, j: nat)
    requires Resolved(r) && i < |r.images| && j < |r.images|
  {
    r.images[i].arch == r.images[j].arch && Extension(r, i) == Extension(r, j)
  }

  predicate DistinctImages(r: Request)
    requires Resolved(r)
  {
    forall i, j :: 0 <= i < j < |r.images| ==> !Alike(r, i, j)
  }

  predicate DotFreeArchs(r: Request) {
    forall i :: 0 <= i < |r.images| ==> '.' !in r.images[i].arch
  }

  lemma NameOfPair(r: Request, filenames: seq<string>, i: nat, j: nat)
    requires Resolved(r) && NamesOf(r, filenames) && DotFreeArchs(r) && i < |r.images| && j < |r.images|
    ensures filenames[i] == filenames[j] <==> Alike(r, i, j)
  {
    NamesCollideExactly(r, i, j);
  }

  lemma NamesDistinctExactly(r: Request, filenames: seq<string>)
    requires Resolved(r) && NamesOf(r, filenames) && DotFreeArchs(r)
    ensures NoDup(filenames) <==> DistinctImages(r)
  {
    if NoDup(filenames) {
      forall i, j | 0 <= i < j < |r.images| ensures !Alike(r, i, j) {
        NameOfPair(r, filenames, i, j);
      }
    } else {
      var i, j :| 0 <= i < j < |filenames| && filenames[i] == filenames[j];
      NameOfPair(r, filenames, i, j);
    }
  }

  /**
   For a request whose architecture names have no dot: in every run of the compose every
   import finds its files in Koji if and only if no two images agree in arch and extension.
   */
  lemma RequestIsSafeExactly(r: Request, directory: string, filenames: seq<string>)
    requires Resolved(r) && NamesOf(r, filenames) && DotFreeArchs(r)
    ensures KojiRuns.EveryImportStored(Compose(directory, filenames)) <==> DistinctImages(r)
  {
    KojiRuns.StoredExactly(Compose(directory, filenames));
    NamesDistinctExactly(r, filenames);
  }

  /** `worker.Server` over its queue: each job is stored with its arguments. */
  class Server {
    const queue: Queue<Raw>
    var args: map<Id, Args>

    constructor (queue: Queue<Raw>, args: map<Id, Args>)
      ensures this.queue == queue && this.args == args
    {
      this.queue, this.args := queue, args;
    }

    /** Enqueue a job under a fresh id; all its dependencies exist. */
    method Enqueue(jobType: string, jobArgs: Args, deps: seq<Id>) returns (id: Id)
      requires queue.Valid() && forall d :: d in deps ==> d in queue.jobs
      modifies this, queue
      ensures queue.Valid() && id !in old(queue.jobs)
      ensures queue.jobs == old(queue.jobs)[id := NewJob(jobType, deps)] && args == old(args)[id := jobArgs]
    {
      id := FreshId(queue.jobs);
      var r := queue.Enqueue(jobType, deps, id);
      args := args[id := jobArgs];
    }
  }

  datatype Posted = Posted(init: Id, builds: seq<Id>, finalize: Id, directory: string, filenames: seq<string>)

  predicate Resolved(r: Request) {
    forall i :: 0 <= i < |r.images| ==> r.images[i].imageFilename.Some?
  }

  ghost predicate NamesOf(r: Request, filenames: seq<string>)
    requires Resolved(r)
  {
    && |filenames| == |r.images|
    && forall i :: 0 <= i < |r.images| ==>
         filenames[i] == r.name + "-" + r.version + "-" + r.release + "." + r.images[i].arch + SplitExtension(r.images[i].imageFilename.value)
  }

  /** A stored job: its type, dependencies and arguments. */
  ghost predicate Stored(jobs: Jobs<Raw>, args: map<Id, Args>, id: Id, jobType: string, deps: seq<Id>, jobArgs: Args) {
    id in jobs && jobs[id] == NewJob(jobType, deps) && id in args && args[id] == jobArgs
  }

  ghost predicate BuildJobs(jobs: Jobs<Raw>, args: map<Id, Args>, r: Request, init: Id, builds: seq<Id>, directory: string, filenames: seq<string>)
    requires |builds| <= |filenames| == |r.images|
  {
    forall i :: 0 <= i < |builds| ==>
      Stored(jobs, args, builds[i], "osbuild-koji:" + r.images[i].arch, [init], BuildArgs(directory, filenames[i]))
  }

  /** The jobs of a posted compose: init, one build per image on init, finalize on all of them in order. */
  ghost predicate Graph(jobs: Jobs<Raw>, args: map<Id, Args>, r: Request, p: Posted) {
    && |p.builds| == |r.images| == |p.filenames|
    && NoDup([p.init] + p.builds + [p.finalize])
    && Stored(jobs, args, p.init, "koji-init", [], InitArgs)
    && BuildJobs(jobs, args, r, p.init, p.builds, p.directory, p.filenames)
    && Stored(jobs, args, p.finalize, "koji-finalize", [p.init] + p.builds, FinalizeArgs(p.directory, p.filenames))
  }

  /** The jobs of a posted compose in the order they were enqueued. */
  function InOrder(p: Posted): seq<Id> {
    [p.init] + p.builds + [p.finalize]
  }

  /**
   A posted compose is an instance of the protocol: numbering its jobs in the order they
   were enqueued turns the stored dependency lists and arguments into those of `Koji.Compose`.
   */
  lemma GraphIsCompose(jobs: Jobs<Raw>, args: map<Id, Args>, r: Request, p: Posted, k: nat)
    requires Graph(jobs, args, r, p) && k < |InOrder(p)|
    ensures var c := Compose(p.directory, p.filenames);
            && |InOrder(p)| == c.Finalize() + 1
            && InOrder(p)[k] in jobs && InOrder(p)[k] in args
            && args[InOrder(p)[k]] == c.ArgsOf(k)
            && |jobs[InOrder(p)[k]].deps| == |c.Deps(k)|
            && forall j :: 0 <= j < |c.Deps(k)| ==>
                 c.Deps(k)[j] < |InOrder(p)| && jobs[InOrder(p)[k]].deps[j] == InOrder(p)[c.Deps(k)[j]]
  {
    var n := |p.builds|;
    if 1 <= k <= n {
      assert InOrder(p)[k] == p.builds[k - 1];
      assert Stored(jobs, args, p.builds[k - 1], "osbuild-koji:" + r.images[k - 1].arch, [p.init], BuildArgs(p.directory, p.filenames[k - 1]));
    }
  }

  method KojiFilenames(r: Request) returns (filenames: Option<seq<string>>)
    ensures filenames.Some? <==> Resolved(r)
    ensures filenames.Some? ==> NamesOf(r, filenames.value)
  {
    var names := [];
    for i := 0 to |r.images|
      invariant |names| == i
      invariant forall k :: 0 <= k < i ==> r.images[k].imageFilename.Some? && names[k] == KojiFilename(r, k)
    {
      if r.images[i].imageFilename.None? {
        return None;
      }
      names := names + [KojiFilename(r, i)];
    }
    return Some(names);
  }

  /**
   Nothing is enqueued unless the distribution is known and every image resolved; job ids are
   fresh. `uuid` is the random part of the upload directory.
   */
  method PostCompose(server: Server, r: Request, uuid: string) returns (posted: Option<Posted>)
    requires server.queue.Valid()
    modifies server, server.queue
    ensures server.queue.Valid()
    ensures posted.Some? <==> r.knownDistro && Resolved(r)
    ensures posted.None? ==> server.queue.jobs == old(server.queue.jobs) && server.args == old(server.args)
    ensures posted.Some? ==>
      && Graph(server.queue.jobs, server.args, r, posted.value)
      && posted.value.directory == "osbuild-composer-koji-" + uuid && NamesOf(r, posted.value.filenames)
      && Unrepeated([posted.value.init] + posted.value.builds)
      && Keeps(old(server.queue.jobs), old(server.args), server.queue.jobs, server.args)
  {
    if !r.knownDistro {
      return None;
    }
    var filenames := KojiFilenames(r);
    if filenames.None? {
      return None;
    }
    var directory := "osbuild-composer-koji-" + uuid;
    var init := server.Enqueue("koji-init", InitArgs, []);
    var builds := EnqueueBuilds(server, r, init, directory, filenames.value);
    ghost var jobs, args := server.queue.jobs, server.args;
    var finalize := server.Enqueue("koji-finalize", FinalizeArgs(directory, filenames.value), [init] + builds);
    var p := Posted(init, builds, finalize, directory, filenames.value);
    GraphComplete(jobs, args, server.queue.jobs, server.args, r, p);
    return Some(p);
  }

  /** Finalize completes the graph of a compose whose other jobs are stored. */
  lemma GraphComplete(jobs: Jobs<Raw>, args: map<Id, Args>, jobs': Jobs<Raw>, args': map<Id, Args>, r: Request, p: Posted)
    requires |p.builds| == |r.images| == |p.filenames| && NoDup([p.init] + p.builds) && p.finalize !in jobs
    requires Stored(jobs, args, p.init, "koji-init", [], InitArgs)
    requires BuildJobs(jobs, args, r, p.init, p.builds, p.directory, p.filenames)
    requires forall id :: id in [p.init] + p.builds ==> id in jobs
    requires jobs' == jobs[p.finalize := NewJob("koji-finalize", [p.init] + p.builds)]
    requires args' == args[p.finalize := FinalizeArgs(p.directory, p.filenames)]
    ensures Graph(jobs', args', r, p) && Unrepeated([p.init] + p.builds)
  {
    AppendNoDup([p.init] + p.builds, p.finalize);
    forall d {
      NoDupUnrepeated([p.init] + p.builds, d);
    }
    forall i | 0 <= i < |p.builds|
      ensures Stored(jobs', args', p.builds[i], "osbuild-koji:" + r.images[i].arch, [p.init], BuildArgs(p.directory, p.filenames[i]))
    {
      assert Stored(jobs, args, p.builds[i], "osbuild-koji:" + r.images[i].arch, [p.init], BuildArgs(p.directory, p.filenames[i]));
    }
  }

  /** Jobs of `before` are still there as they were, with their arguments. */
  ghost predicate Keeps(before: Jobs<Raw>, args: map<Id, Args>, after: Jobs<Raw>, args': map<Id, Args>) {
    forall id :: id in before ==>
      id in after && after[id] == before[id] && (id in args ==> id in args' && args'[id] == args[id])
  }

  /** The loop that enqueues one build per image. */
  method EnqueueBuilds(server: Server, r: Request, init: Id, directory: string, filenames: seq<string>) returns (builds: seq<Id>)
    requires server.queue.Valid() && init in server.queue.jobs && |filenames| == |r.images|
    modifies server, server.queue
    ensures server.queue.Valid() && |builds| == |r.images| && NoDup([init] + builds)
    ensures BuildJobs(server.queue.jobs, server.args, r, init, builds, directory, filenames)
    ensures forall id :: id in [init] + builds ==> id in server.queue.jobs
    ensures init in old(server.args) ==> init in server.args && server.args[init] == old(server.args)[init]
    ensures Keeps(old(server.queue.jobs), old(server.args), server.queue.jobs, server.args)
  {
    builds := [];
    for i := 0 to |r.images|
      invariant server.queue.Valid() && |builds| == i && NoDup([init] + builds)
      invariant BuildJobs(server.queue.jobs, server.args, r, init, builds, directory, filenames)
      invariant forall id :: id in [init] + builds ==> id in server.queue.jobs
      invariant Keeps(old(server.queue.jobs), old(server.args), server.queue.jobs, server.args)
    {
      var id := server.Enqueue("osbuild-koji:" + r.images[i].arch, BuildArgs(directory, filenames[i]), [init]);
      AppendNoDup([init] + builds, id);
      assert [init] + (builds + [id]) == ([init] + builds) + [id];
      builds := builds + [id];
    }
  }

  /** Stands for `uuid.New`. */
  method FreshId<R>(jobs: Jobs<R>) returns (id: Id)
    ensures id !in jobs
  {
    id := 0;
    var below := jobs.Keys;
    while id in jobs
      invariant forall k :: 0 <= k < id ==> k !in below
      invariant forall k: Id :: k >= id && k in jobs ==> k in below
      decreases below
    {
      below := below - {id};
      id := id + 1;
    }
  }
}
