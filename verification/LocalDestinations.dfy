/** Where a recursive get goes, and the whole of it, from the listing of the remote end on. */
module LocalDestinations {
  import opened Wrappers
  import opened Paths
  import opened RemoteFs
  import opened RemotePaths
  import opened MainLoop
  import opened Copies
  import opened RecursivePut
  import opened Routes
  import opened PermissionPass
  import opened RecursiveGet
  import opened PreservingGet
  import opened NewDirectories

  // ---------------------------------------------------------------- from the listing on

  /** The listing of a source tree, in the order of the remote end's walk. */
  ghost function Entries(c: Copy): (es: seq<ListEntry>)
    requires Covers(c.order, c.src)
    ensures |es| == |c.order|
    ensures forall i :: 0 <= i < |c.order| ==> es[i] == ListEntry(SourceOf(c.root, c.order[i]), c.src[c.order[i]].Dir?)
  {
    seq(|c.order|, i requires 0 <= i < |c.order| => ListEntry(SourceOf(c.root, c.order[i]), c.src[c.order[i]].Dir?))
  }

  function SourceJob(root: string, host: string, destination: string, preserve: bool): Job {
    Job(FileSpec(Some(host), root), FileSpec(None, destination), preserve, false)
  }

  /** The jobs that are assembled from the listing are those of the copy. */
  lemma JobsOfListing(c: Copy, host: string, destination: string, preserve: bool, intoNew: bool)
    requires c.FromTree() && c.stem != "" && c.stem == StemFor(destination, c.root, intoNew)
    ensures EntryJobs(SourceJob(c.root, host, destination, preserve), Entries(c), intoNew) == GetJobs(c, host, preserve)
  {
    hide IsFs, Target, ParentFirst, Distinct, IsTree, LeafOf, LocalName, StemFor, SourceOf, DestinationOf;
    var job := SourceJob(c.root, host, destination, preserve);
    forall i | 0 <= i < |c.order|
      ensures EntryJob(job, Entries(c)[i], intoNew) == GetJob(c.root, host, c.stem, c.src, preserve, c.order[i])
    {
      assert c.order[i] in c.src;
      EntryIsNamed(c.src, c.order[i]);
      NamesMirror(c.root, c.stem, c.order[i]);
    }
  }

  lemma OneListing<S>(env: Env<S>, list: Lister<S>, s: S, job: Job, entries: seq<ListEntry>, intoNew: bool)
    requires env.open(s) == (s, true) && list(s, job) == (s, Some(entries))
    ensures Listings(env, list, s, [job], intoNew) == (s, Some(EntryJobs(job, entries, intoNew)))
  {
    assert [job][..0] == [];
    assert [] + EntryJobs(job, entries, intoNew) == EntryJobs(job, entries, intoNew);
  }

  // ----------------------------------------------------------- into a directory that is there

  lemma {:induction false} PlainIsPart(parts: seq<string>, part: string)
    requires part in Plain(parts)
    ensures part in parts && part != "" && part != "."
  {
    if part != parts[0] || parts[0] == "" || parts[0] == "." {
      PlainIsPart(parts[1..], part);
    } else {
    }
  }

  lemma FileNameIsName(s: string)
    ensures FileName(s).Some? ==> IsName(FileName(s).value)
  {
    hide Split, Plain;
    var parts := Plain(Split(s));
    if parts != [] {
      PlainIsPart(Split(s), Last(parts));
      PartsHaveNoSeparator(s);
    }
  }

  /** What the source is called in its new directory, if it has a name. */
  function PlaceIn(d: Path, source: string): Path {
    match FileName(source) case None => d case Some(name) => d + [name]
  }

  /** Where a get into an existing directory goes: to the source's name in it, if the directory lets it through. */
  lemma TargetOfGet(fs: Fs, cwd: Path, source: string, destination: string, d: Path)
    requires Find(fs, cwd, destination) == Ok(d) && fs[d].Dir?
    ensures
      var target := Target(fs, cwd, StemFor(destination, source, false));
      if FileName(source).None? || fs[d].open then target == Some(PlaceIn(d, source)) else target == None
  {
    FileNameIsName(source);
    hide Target, Split, FileName, Look;
    match FileName(source)
    case None => TargetIsDirectory(fs, cwd, destination, d);
    case Some(name) =>
      if fs[d].open {
        TargetInDirectory(fs, cwd, destination, d, name);
      } else {
        NoTargetInClosed(fs, cwd, destination, d, name);
      }
  }

  lemma NamedParts(cwd: Path, destination: string, name: string)
    requires destination != "" && IsName(name)
    ensures
      var text := JoinRemote(destination, name);
      && text != "" && Split(text) == BaseParts(text) == BaseParts(destination) + [name]
      && DropTrailing(BaseParts(text)) == BaseParts(destination) + [name] && Start(cwd, text) == Start(cwd, destination)
  {
    var text := JoinRemote(destination, name);
    SplitName(name);
    JoinRemoteParts(destination, name);
    assert text[|text| - 1] == name[|name| - 1] && name[|name| - 1] in name;
    hide Split;
    assert Last(BaseParts(destination) + [name]) == name;
  }

  lemma NoTargetInClosed(fs: Fs, cwd: Path, destination: string, d: Path, name: string)
    requires Find(fs, cwd, destination) == Ok(d) && fs[d] == Dir(false) && IsName(name)
    ensures
      var text := JoinRemote(destination, name);
      && Target(fs, cwd, text) == None
      && Meta(fs, cwd, text) == Absent && CreateAll(fs, cwd, text) == (fs, false)
  {
    var text, at, parts := JoinRemote(destination, name), Start(cwd, destination), BaseParts(destination);
    NamedParts(cwd, destination, name);
    StemParts(destination);
    hide Look, Split, BaseParts, JoinRemote, IsAbsolute, CreateAllAt;
    assert Look(fs, at, parts) == Ok(d) by {
      if Split(destination) == parts + [""] {
        LookAppend(fs, at, parts, [""]);
        LookOne(fs, Look(fs, at, parts).value, "");
      }
    }
    assert Init(parts + [name]) == parts && Last(parts + [name]) == name;
    LookAppend(fs, at, parts, [name]);
    LookOne(fs, d, name);
    CreateAllOutcome(fs, at, parts + [name]);
  }

  /** When that directory is closed, the run fails. */
  lemma GetNowhere(c: Copy, remote: map<string, Node>, host: string, destination: string, preserve: bool, d: Path)
    requires c.Given() && c.order != [] && c.stem == StemFor(destination, c.root, false)
    requires Find(c.fs, c.cwd, destination) == Ok(d) && c.fs[d] == Dir(false) && FileName(c.root).Some?
    ensures
      var (fs', r) := Run(ClientEnv(remote, c.cwd), c.fs, GetJobs(c, host, preserve));
      r.Some? && !r.value.0
  {
    hide ClientEnv, IsTree, IsFs, Target, ParentFirst, Distinct, Holds, Transfers, Posts, KeptReversed, Total,
         ByteSum, IsPeak, FileName, Look, Split, CreateAll, Meta, Perform, Copy.Progress, PostJobs;
    var env, jobs := ClientEnv(remote, c.cwd), GetJobs(c, host, preserve);
    FileNameIsName(c.root);
    NoTargetInClosed(c.fs, c.cwd, destination, d, FileName(c.root).value);
    assert c.stem != "" by {
      NamedParts(c.cwd, destination, FileName(c.root).value);
    }
    FirstIsRoot(c);
    NothingYet(c);
    LocalDirIs(remote, c.cwd, c.fs, jobs[0]);
    GetOne(c, remote, host, preserve, 0);
    assert jobs[0..] == jobs;
    assert Transfers(env, c.fs, jobs, false) == (c.fs, [Failed]);
    LocalPostsHaveStreams(remote, c.cwd, c.fs, PostJobs(jobs));
    var os := [Failed];
    assert Failed in os && NoStream !in os;
  }

  lemma IntoThere(fs: Fs, cwd: Path, source: string, destination: string, d: Path)
    requires Find(fs, cwd, destination) == Ok(d) && fs[d].Dir?
    ensures Meta(fs, cwd, destination) == IsOther && StemFor(destination, source, false) != ""
  {
    if FileName(source).Some? {
      FileNameIsName(source);
      NamedParts(cwd, destination, FileName(source).value);
    }
    hide Look, Split, FileName, JoinRemote;
  }

  lemma RunIntoThere<S>(env: Env<S>, list: Lister<S>, s: S, job: Job, newJobs: seq<Job>)
    requires env.stat(s, job.destination.filename) == IsOther
    requires Listings(env, list, s, [job], false) == (s, Some(newJobs))
    ensures GetRun(env, list, s, [job], true) == Run(env, s, newJobs)
  {
    hide Run, Listings;
  }

  /**
   A get of one source into a directory that is there goes to the entry of that
   directory that has the source's name, and succeeds exactly when the directory
   lets it through and every entry can land there.
   */
  lemma GetIntoDirectory(c: Copy, remote: map<string, Node>, host: string, destination: string, preserve: bool, d: Path,
                         list: Lister<Fs>)
    requires c.Given() && Holds(remote, c.root, c.src) && c.order != [] && c.pushes == 1
    requires Find(c.fs, c.cwd, destination) == Ok(d) && c.fs[d].Dir? && c.stem == StemFor(destination, c.root, false)
    requires list(c.fs, SourceJob(c.root, host, destination, preserve)) == (c.fs, Some(Entries(c)))
    ensures c.Valid() <==> FileName(c.root).None? || c.fs[d].open
    ensures c.Valid() ==> c.t == PlaceIn(d, c.root)
    ensures
      var job := SourceJob(c.root, host, destination, preserve);
      var (fs', r) := GetRun(ClientEnv(remote, c.cwd), list, c.fs, [job], true);
      && r.Some?
      && (r.value.0 <==> c.Valid() && c.LandsFrom(0) && (c.Sets(preserve) ==> Passable(c)))
      && (r.value.0 ==> c.Landed(fs', c.Sets(preserve)))
      && (r.value.0 && c.Rebuilt(fs', c.Sets(preserve)) <==>
         c.Valid() && c.FitsFrom(0) && (c.Sets(preserve) ==> Passable(c)))
  {
    IntoThere(c.fs, c.cwd, c.root, destination, d);
    TargetOfGet(c.fs, c.cwd, c.root, destination, d);
    hide Meta, PlaceIn, Find, GetRun, IsFs, Target, ParentFirst, Distinct, IsTree, StemFor, Holds, Run,
         Copy.LandsFrom, Copy.FitsFrom, Listings, Copy.Landed, Copy.Rebuilt, FileName, Look, Split, Passable;
    JobsOfListing(c, host, destination, preserve, false);
    var env, job := ClientEnv(remote, c.cwd), SourceJob(c.root, host, destination, preserve);
    ClientEnvIs(remote, c.cwd, c.fs, destination);
    OneListing(env, list, c.fs, job, Entries(c), false);
    RunIntoThere(env, list, c.fs, job, EntryJobs(job, Entries(c), false));
    hide ClientEnv, EntryJobs, GetJobs;
    if !c.Valid() {
      GetNowhere(c, remote, host, destination, preserve, d);
    } else if c.Sets(preserve) {
      PreservingGetCopies(c, remote, host);
    } else {
      GetCopies(c, remote, host, preserve);
    }
  }

  // ------------------------------------------------------------ to a place that is not there

  lemma RunIntoNew<S>(env: Env<S>, list: Lister<S>, s: S, job: Job, newJobs: seq<Job>)
    requires env.stat(s, job.destination.filename) == Absent
    requires Listings(env, list, s, [job], true) == (s, Some(newJobs)) && newJobs != [] && newJobs[0].directory
    requires env.createAll(s, job.destination.filename).1 == Created
    ensures GetRun(env, list, s, [job], true) == Run(env, env.createAll(s, job.destination.filename).0, newJobs)
  {
    hide Run, Listings;
  }

  /** Where the text of a new destination leads, once it is made. */
  function NewTarget(cwd: Path, stem: string): Path {
    Walk(Start(cwd, stem), Split(stem))
  }

  /** A destination that has been made is found, and is where the text leads. */
  lemma NewPlace(c: Copy, fs: Fs)
    requires c.FromTree() && IsFs(fs) && [] in fs && c.cwd in fs && fs[c.cwd].Dir? && c.stem != ""
    requires c.fs == CreateAll(fs, c.cwd, c.stem).0 && c.t == NewTarget(c.cwd, c.stem) && CreateAll(fs, c.cwd, c.stem).1
    ensures c.Given() && c.Valid()
  {
    hide IsTree, ParentFirst, Distinct, Split, IsFs, Look, Target, CreateAllAt, Covers;
    var at, parts := Start(c.cwd, c.stem), Split(c.stem);
    CreateAllGrows(fs, at, parts);
    CreateAllKeepsFs(fs, at, parts);
    CreatedIsThere(fs, at, parts);
    LookIsWalk(c.fs, at, parts);
    TargetIsDirectory(c.fs, c.cwd, c.stem, c.t);
  }

  /**
   A get of one source directory to a place that is not there makes that place,
   whatever is missing on the way, or stops. Then it succeeds exactly when every
   entry can land there, which in an empty place they always can.
   */
  lemma GetIntoNewDirectory(c: Copy, fs: Fs, remote: map<string, Node>, host: string, preserve: bool, list: Lister<Fs>)
    requires c.FromTree() && Holds(remote, c.root, c.src) && c.order != [] && c.pushes == 1
    requires IsFs(fs) && [] in fs && c.cwd in fs && fs[c.cwd].Dir? && c.stem != "" && Meta(fs, c.cwd, c.stem) == Absent
    requires c.fs == CreateAll(fs, c.cwd, c.stem).0 && c.t == NewTarget(c.cwd, c.stem)
    requires list(fs, SourceJob(c.root, host, c.stem, preserve)) == (fs, Some(Entries(c)))
    ensures
      var made := CreateAll(fs, c.cwd, c.stem).1;
      var (fs', r) := GetRun(ClientEnv(remote, c.cwd), list, fs, [SourceJob(c.root, host, c.stem, preserve)], true);
      if !made then r.None? && fs' == c.fs
      else
        && c.Valid() && r.Some?
        && (r.value.0 <==> c.LandsFrom(0) && (c.Sets(preserve) ==> Passable(c)))
        && (r.value.0 ==> c.Landed(fs', c.Sets(preserve)))
        && (r.value.0 && c.Rebuilt(fs', c.Sets(preserve)) <==> c.FitsFrom(0) && (c.Sets(preserve) ==> Passable(c)))
        && (Empty(c) ==> r.value.0 && c.Rebuilt(fs', c.Sets(preserve)))
  {
    var env, job := ClientEnv(remote, c.cwd), SourceJob(c.root, host, c.stem, preserve);
    hide IsFs, Target, ParentFirst, Distinct, IsTree, Holds, Run, Copy.LandsFrom, Copy.FitsFrom, Listings, Meta,
         ClientEnv, GetJobs, EntryJobs, Copy.Landed, Copy.Rebuilt, CreateAllAt, Split, Look, NewTarget, Passable,
         CreateAll, Empty;
    ClientEnvIs(remote, c.cwd, fs, c.stem);
    OneListing(env, list, fs, job, Entries(c), true);
    JobsOfListing(c, host, c.stem, preserve, true);
    FirstIsDirectory(c);
    if CreateAll(fs, c.cwd, c.stem).1 {
      NewPlace(c, fs);
      RunIntoNew(env, list, fs, job, EntryJobs(job, Entries(c), true));
      if Empty(c) {
        EmptyDestinationFits(c);
      }
      if c.Sets(preserve) {
        PreservingGetCopies(c, remote, host);
      } else {
        GetCopies(c, remote, host, preserve);
      }
    } else {
      NotMade(env, list, fs, job, EntryJobs(job, Entries(c), true));
    }
  }

  lemma NotMade<S>(env: Env<S>, list: Lister<S>, s: S, job: Job, newJobs: seq<Job>)
    requires env.stat(s, job.destination.filename) == Absent
    requires Listings(env, list, s, [job], true) == (s, Some(newJobs)) && newJobs != [] && newJobs[0].directory
    requires env.createAll(s, job.destination.filename).1 == NotCreated
    ensures GetRun(env, list, s, [job], true) == (env.createAll(s, job.destination.filename).0, None)
  {
    hide Run, Listings;
  }

  /** What leads to the missing part of a destination's text, and that part. */
  ghost predicate Splits(fs: Fs, cwd: Path, stem: string, base: seq<string>, missing: seq<string>, d: Path) {
    && stem != "" && DropTrailing(Split(stem)) == base + missing && missing != [] && Last(missing) != "."
    && Look(fs, Start(cwd, stem), base) == Ok(d) && Missing(fs, d, missing)
  }

  lemma SplitsAreMade(fs: Fs, cwd: Path, stem: string, base: seq<string>, missing: seq<string>, d: Path)
    requires Splits(fs, cwd, stem, base, missing, d) && Start(cwd, stem) in fs
    ensures Meta(fs, cwd, stem) == Absent
    ensures CreateAll(fs, cwd, stem) == if fs[d].open then (MadeAll(fs, d, Plain(missing)), true) else (fs, false)
    ensures NewTarget(cwd, stem) == d + Plain(missing)
  {
    var at, parts := Start(cwd, stem), Split(stem);
    hide Look, Split, MadeAll, MakeWay, Missing, CreateAllAt, Walk;
    assert Last(base + missing) == Last(missing);
    CreatesWay(fs, at, parts);
    TrailingMakesNothing(fs, at, parts);
    MakesMissingFrom(fs, at, base, missing, d);
    WalkWithoutTrailing(at, parts);
    if Look(fs, at, parts).Ok? {
      LookWithoutTrailing(fs, at, parts);
      LookAppend(fs, at, base, missing);
      NotInside(fs, d, missing);
    }
  }

  lemma {:induction false} NotInside(fs: Fs, d: Path, missing: seq<string>)
    requires Missing(fs, d, missing)
    ensures Look(fs, d, missing).Err?
    decreases |missing|
  {
    if missing[0] == "" || missing[0] == "." {
      assert Plain(missing) == Plain(missing[1..]);
      NotInside(fs, d, missing[1..]);
    } else {
      assert Plain(missing)[0] == missing[0] && IsName(missing[0]);
    }
  }

  /**
   When the missing part of the way consists of names, with empty parts and dots
   between them, such a get succeeds and rebuilds the source exactly when the
   last directory that is there lets it through; otherwise it stops and nothing
   has changed.
   */
  lemma GetBelowMissing(c: Copy, fs: Fs, base: seq<string>, missing: seq<string>, d: Path, remote: map<string, Node>,
                        host: string, preserve: bool, list: Lister<Fs>)
    requires c.FromTree() && Holds(remote, c.root, c.src) && c.order != [] && c.pushes == 1
    requires [] in fs && c.cwd in fs && fs[c.cwd].Dir? && Splits(fs, c.cwd, c.stem, base, missing, d)
    requires c.fs == CreateAll(fs, c.cwd, c.stem).0 && c.t == NewTarget(c.cwd, c.stem)
    requires list(fs, SourceJob(c.root, host, c.stem, preserve)) == (fs, Some(Entries(c)))
    ensures
      var (fs', r) := GetRun(ClientEnv(remote, c.cwd), list, fs, [SourceJob(c.root, host, c.stem, preserve)], true);
      && (if fs[d].open then r.Some? && r.value.0 && c.Rebuilt(fs', c.Sets(preserve)) else r.None? && fs' == fs)
      && c.t == d + Plain(missing)
  {
    hide Copy.FromTree, Holds, GetRun, ClientEnv, Copy.Landed, Copy.Rebuilt, Copy.LandsFrom, Copy.FitsFrom, Passable,
         NewTarget, CreateAll, MadeAll, Look, Split, Copy.Valid;
    SplitsAreMade(fs, c.cwd, c.stem, base, missing, d);
    if fs[d].open {
      forall p | c.t <= p ensures if p == c.t then Has(c.fs, p, Dir(true)) else p !in c.fs {
        MadeIsEmpty(fs, d, missing, p);
      }
    }
    assert IsFs(fs);
    GetIntoNewDirectory(c, fs, remote, host, preserve, list);
  }

  lemma FirstIsDirectory(c: Copy)
    requires c.FromTree() && c.order != [] && c.stem != ""
    ensures Entries(c)[0].directory
  {
    hide Distinct;
    FirstEntry(c.order, 0);
    RootIsDir(c.src);
  }
}
