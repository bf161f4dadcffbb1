/** A recursive put of several sources into one directory of the remote end, from the command line on. */
module SeveralPuts {
  import opened Wrappers
  import opened Paths
  import opened RemoteFs
  import opened RemotePaths
  import opened MainLoop
  import opened DirWalk
  import opened CommandLine
  import opened Copies
  import opened RecursivePut
  import opened PermissionPass
  import opened PreservingPut
  import opened TreeWalk
  import opened SeveralSources

  // ------------------------------------------------------------- what the server does

  lemma PutCarriesOut(c: Copy, local: map<string, Node>, host: string, preserve: bool)
    requires c.Valid() && Holds(local, c.root, c.src) && c.pushes == 2
    ensures CarriesOut(ServerEnv(local, c.cwd), true, c, Jobs(c, host, preserve))
  {
    hide ServerEnv, IsTree, IsFs, Target, ParentFirst, Distinct, Holds, Transfers, JobsFor;
    forall fs | Over(c, fs).Valid()
      ensures
        var r := Transfers(ServerEnv(local, c.cwd), fs, Jobs(c, host, preserve), true);
        && (AllGood(r.1) <==> Over(c, fs).LandsFrom(0))
        && (Over(c, fs).LandsFrom(0) ==> r.0 == Over(c, fs).Progress(|c.order|))
    {
      PutOver(Over(c, fs), local, host, preserve);
    }
  }

  lemma PutOver(c: Copy, local: map<string, Node>, host: string, preserve: bool)
    requires c.Valid() && Holds(local, c.root, c.src) && c.pushes == 2
    ensures
      var r := Transfers(ServerEnv(local, c.cwd), c.fs, Jobs(c, host, preserve), true);
      && (AllGood(r.1) <==> c.LandsFrom(0))
      && (c.LandsFrom(0) ==> r.0 == c.Progress(|c.order|))
  {
    hide ServerEnv, IsTree, IsFs, Target, ParentFirst, Distinct, Holds, Transfers, JobsFor, Copy.LandsFrom,
         Copy.Progress;
    NothingYet(c);
    assert Jobs(c, host, preserve)[0..] == Jobs(c, host, preserve);
    RebuildFrom(c, local, host, preserve, 0);
  }

  lemma PutSets(c: Copy, local: map<string, Node>, host: string)
    requires c.Valid() && Holds(local, c.root, c.src) && c.pushes == 2
    ensures SetsPermissions(ServerEnv(local, c.cwd), c, Jobs(c, host, true))
  {
    hide ServerEnv, IsTree, IsFs, Target, ParentFirst, Distinct, Holds, Posts, JobsFor, KeptReversed, AllOk, SameKinds;
    var env, jobs, n := ServerEnv(local, c.cwd), Jobs(c, host, true), |c.order|;
    forall start | SameKinds(c.fs, start) && NoFileFor(c, start)
      ensures
        var r := Posts(env, start, KeptReversed(jobs));
        NoStream !in r.1 && r.0 == Passed(c, start, 0) && (AllMoved(r.1) <==> AllOk(c, start, n))
    {
      assert jobs[..n] == jobs && Passed(c, start, n) == start;
      PermissionsFrom(c, local, host, start, n);
      PostsKeepKinds(local, c.cwd, start, KeptReversed(jobs));
    }
  }

  // ----------------------------------------------------------------------- all of them

  ghost function PutJobs(cs: seq<Copy>, host: string, preserve: bool): (js: seq<seq<Job>>)
    requires AllCover(cs)
    ensures |js| == |cs| && forall i :: 0 <= i < |cs| ==> js[i] == Jobs(cs[i], host, preserve)
  {
    seq(|cs|, i requires 0 <= i < |cs| => Jobs(cs[i], host, preserve))
  }

  /** The copies are puts of trees that the local side holds. */
  ghost predicate Puts(cs: seq<Copy>, local: map<string, Node>, cwd: Path) {
    forall i :: 0 <= i < |cs| ==> IsPut(cs[i], local, cwd)
  }

  ghost predicate IsPut(c: Copy, local: map<string, Node>, cwd: Path) {
    Holds(local, c.root, c.src) && c.pushes == 2 && c.cwd == cwd
  }

  lemma {:induction false} ConcatIs(cs: seq<Copy>, host: string, preserve: bool, i: nat)
    requires AllCover(cs) && i <= |cs|
    requires forall k :: 0 <= k < |cs| ==> cs[k].order != []
    ensures
      var jobs := Concat(PutJobs(cs, host, preserve), i);
      && |jobs| >= i
      && forall job :: job in jobs ==> job.preserve == preserve && job.destination.host.Some?
  {
    if i == 0 {
    } else {
      ConcatIs(cs, host, preserve, i - 1);
      var c := cs[i - 1];
      assert Covers(c.order, c.src);
      hide DestinationOf, SourceOf;
      assert |Jobs(c, host, preserve)| == |c.order|;
    }
  }

  /** The jobs of several puts succeed exactly when the entries of all can land, and the way to them stays open. */
  lemma PutsLand(cs: seq<Copy>, fs: Fs, way: set<Path>, local: map<string, Node>, cwd: Path, host: string,
                 preserve: bool)
    requires Siblings(cs, fs, way) && AllCover(cs) && IsFs(fs) && |cs| > 1 && Puts(cs, local, cwd)
    ensures
      var jobs := Concat(PutJobs(cs, host, preserve), |cs|);
      var (fs', r) := Run(ServerEnv(local, cwd), fs, jobs);
      && r.Some?
      && (r.value.0 <==> AllLand(cs, |cs|) && (preserve ==> AllPassable(cs, way)))
      && (r.value.0 ==> AllLanded(cs, |cs|, fs, fs', preserve))
  {
    var env, js := ServerEnv(local, cwd), PutJobs(cs, host, preserve);
    var jobs := Concat(js, |cs|);
    AllAreSiblings(cs, fs, way);
    hide ServerEnv, AllPassable, AllLanded, Run, Transfers, IsFs, KeptReversed, CarriesOut, SetsPermissions, Concat,
         JobsFor, AllLand, Siblings, Holds, Copy.Valid, Copy.Given;
    ConcatIs(cs, host, preserve, |cs|);
    assert jobs[0] in jobs;
    assert MainLoop.Remote(jobs);
    forall i | 0 <= i < |cs|
      ensures CarriesOut(env, true, cs[i], js[i]) && (preserve ==> SetsPermissions(env, cs[i], js[i]))
    {
      assert IsPut(cs[i], local, cwd);
      AllValid(cs, fs, way, i);
      PutCarriesOut(cs[i], local, host, preserve);
      if preserve {
        PutSets(cs[i], local, host);
      }
    }
    if !preserve {
      forall k | 0 <= k < |jobs| ensures !jobs[k].Kept() {
        assert jobs[k] in jobs;
      }
      NoneKept(jobs);
    }
    TransfersKeepKinds(local, cwd, fs, jobs);
    NothingIsLost(local, cwd, fs, jobs);
    RunOfAll(env, cs, fs, way, js, preserve);
  }

  // --------------------------------------------------------------- from the command line

  ghost predicate AllWalked(cs: seq<Copy>, wholes: seq<Fs>, fulls: seq<seq<Path>>, privileged: bool,
                            walk: string -> seq<WalkItem>)
  {
    |wholes| == |fulls| == |cs| &&
    forall i :: 0 <= i < |cs| ==> Walked(cs[i], wholes[i], fulls[i], privileged, walk)
  }

  /** The walker takes some order through the tree that is copied. */
  ghost predicate Walked(c: Copy, whole: Fs, full: seq<Path>, privileged: bool, walk: string -> seq<WalkItem>) {
    CopiesWalk(c, whole, privileged, full) && walk(c.root) == Items(c.root, whole, privileged, full)
  }

  ghost predicate AllSeenWhole(cs: seq<Copy>, wholes: seq<Fs>, n: nat)
    requires n <= |cs| == |wholes|
  {
    forall i :: 0 <= i < n ==> cs[i].src == wholes[i]
  }

  function SourcesOf(cs: seq<Copy>): (sources: seq<FileSpec>)
    ensures |sources| == |cs| && forall i :: 0 <= i < |cs| ==> sources[i] == FileSpec(None, cs[i].root)
  {
    seq(|cs|, i requires 0 <= i < |cs| => FileSpec(None, cs[i].root))
  }

  lemma OneMoreSource(sources: seq<FileSpec>, destination: FileSpec, options: Options, walk: string -> seq<WalkItem>,
                      many: bool, i: nat)
    requires forall name :: Sound(walk(name))
    requires i < |sources| && options.recurse && destination.host.Some?
    ensures
      AllJobs(sources[..i + 1], destination, options, walk, many) ==
        match AllJobs(sources[..i], destination, options, walk, many)
        case Err(e) => Err(e)
        case Ok((ok, jobs)) =>
          match SourceJobs(sources[i], destination, options.preserve, walk(sources[i].filename))
          case Err(e) => Err(e)
          case Ok((ok', jobs')) => Ok((ok && ok', jobs + jobs'))
  {
    hide SourceJobs;
    assert sources[..i + 1][..i] == sources[..i];
  }

  lemma {:induction false} JobsOfSources(cs: seq<Copy>, wholes: seq<Fs>, fulls: seq<seq<Path>>, privileged: bool,
                                         host: string, destination: string, preserve: bool,
                                         walk: string -> seq<WalkItem>, i: nat)
    requires AllCover(cs) && AllWalked(cs, wholes, fulls, privileged, walk) && i <= |cs|
    requires forall k :: 0 <= k < |cs| ==> cs[k].Given() && cs[k].stem == DestinationStem(cs[k].root, destination)
    requires forall name :: Sound(walk(name))
    ensures
      AllJobs(SourcesOf(cs)[..i], FileSpec(Some(host), destination), Options(true, preserve), walk, |cs| > 1) ==
        Ok((AllSeenWhole(cs, wholes, i), Concat(PutJobs(cs, host, preserve), i)))
  {
    hide SourceJobs, Sound, Copy.Given, DestinationStem, CopiesWalk, Items, JobsFor;
    var options, dest := Options(true, preserve), FileSpec(Some(host), destination);
    if i == 0 {
      assert SourcesOf(cs)[..0] == [];
    } else {
      JobsOfSources(cs, wholes, fulls, privileged, host, destination, preserve, walk, i - 1);
      OneMoreSource(SourcesOf(cs), dest, options, walk, |cs| > 1, i - 1);
      assert Walked(cs[i - 1], wholes[i - 1], fulls[i - 1], privileged, walk);
      JobsOfWalk(cs[i - 1], wholes[i - 1], privileged, fulls[i - 1], host, destination, preserve);
      assert AllSeenWhole(cs, wholes, i) <==> AllSeenWhole(cs, wholes, i - 1) && cs[i - 1].src == wholes[i - 1];
    }
  }

  lemma SpecsOfSources(sources: seq<FileSpec>, destination: FileSpec, options: Options, walk: string -> seq<WalkItem>)
    requires forall name :: Sound(walk(name))
    requires sources != [] && destination.host.Some? && forall i :: 0 <= i < |sources| ==> sources[i].host.None?
    ensures JobSpecs(sources + [destination], options, walk) ==
            AllJobs(sources, destination, options, walk, |sources| > 1)
  {
    var paths := sources + [destination];
    hide AllJobs, Sound;
    assert Init(paths) == sources && Last(paths) == destination;
    assert OneUser(paths) && OneHost(paths) && OneSide(sources, destination);
  }

  /**
   A recursive put of several sources with different last parts into an open
   directory: the client reports success exactly when the walker could look at all
   of each, every entry of each can land at the entry of that name, and, if
   permissions are set, the text of the destination leads through no closed
   directory of any, the first root aside. Then everything is in its place, and
   nothing else has changed.
   */
  lemma ClientPutsAll(cs: seq<Copy>, names: seq<string>, fs: Fs, cwd: Path, d: Path, wholes: seq<Fs>,
                      fulls: seq<seq<Path>>, privileged: bool, local: map<string, Node>, host: string,
                      destination: string, preserve: bool, walk: string -> seq<WalkItem>)
    requires Named(cs, names, fs, cwd, destination) && |cs| > 1 && Puts(cs, local, cwd)
    requires EndsWithSeparator(destination) && Find(fs, cwd, destination) == Ok(d) && fs[d] == Dir(true) && IsFs(fs)
    requires forall i :: 0 <= i < |cs| ==> LastPart(Split(cs[i].root)) == Some(names[i])
    requires AllWalked(cs, wholes, fulls, privileged, walk) && forall name :: Sound(walk(name))
    ensures AllCover(cs) && forall i :: 0 <= i < |cs| ==> cs[i].t == d + [names[i]]
    ensures
      var paths := SourcesOf(cs) + [FileSpec(Some(host), destination)];
      var (fs', exit) := Client(ServerEnv(local, cwd), fs, paths, Options(true, preserve), walk);
      var landing := AllLand(cs, |cs|) && (preserve ==> AllPassable(cs, WayInto(cwd, destination, d)));
      && exit.Finished?
      && (exit.success <==> AllSeenWhole(cs, wholes, |cs|) && landing)
      && (landing ==> AllLanded(cs, |cs|, fs, fs', preserve))
  {
    hide LastPart, Split, DestinationStem, Copy.Given, Siblings, IsFs, Find, WayInto, ServerEnv, AllPassable,
         AllLanded, AllLand, Run, AllJobs, JobSpecs, Walked, Sound, Puts, Concat, JobsFor, EndsWithSeparator,
         AllCover, AllSeenWhole, PutJobs, SourcesOf, JoinRemote, IsName, Client, AllWalked;
    var way, sources := WayInto(cwd, destination, d), SourcesOf(cs);
    NamedAreSiblings(cs, names, fs, cwd, destination, d);
    SiblingsCover(cs, fs, way);
    StemsAgree(cs, names, fs, cwd, destination);
    AllAreSiblings(cs, fs, way);
    JobsOfSources(cs, wholes, fulls, privileged, host, destination, preserve, walk, |cs|);
    assert sources[..|cs|] == sources;
    SpecsOfSources(sources, FileSpec(Some(host), destination), Options(true, preserve), walk);
    PutsLand(cs, fs, way, local, cwd, host, preserve);
    ConcatIs(cs, host, preserve, |cs|);
    ClientRuns(ServerEnv(local, cwd), fs, sources + [FileSpec(Some(host), destination)], Options(true, preserve), walk);
  }

  lemma ClientRuns<S>(env: Env<S>, s: S, paths: seq<FileSpec>, options: Options, walk: string -> seq<WalkItem>)
    requires forall name :: Sound(walk(name))
    requires JobSpecs(paths, options, walk).Ok? && JobSpecs(paths, options, walk).value.1 != []
    requires Run(env, s, JobSpecs(paths, options, walk).value.1).1.Some?
    ensures
      var (complete, jobs) := JobSpecs(paths, options, walk).value;
      var (s', r) := Run(env, s, jobs);
      Client(env, s, paths, options, walk) == (s', Finished(r.value.0 && complete, r.value.1))
  {
    hide Run, JobSpecs, Sound;
  }

  lemma StemsAgree(cs: seq<Copy>, names: seq<string>, fs: Fs, cwd: Path, destination: string)
    requires Named(cs, names, fs, cwd, destination) && EndsWithSeparator(destination)
    requires forall i :: 0 <= i < |cs| ==> LastPart(Split(cs[i].root)) == Some(names[i])
    ensures forall i :: 0 <= i < |cs| ==> cs[i].stem == DestinationStem(cs[i].root, destination)
  {
    hide LastPart, Split, Copy.Given, IsName;
  }
}
