/** A recursive get of several sources into one local directory. */
module SeveralGets {
  import opened Wrappers
  import opened Paths
  import opened RemoteFs
  import opened RemotePaths
  import opened MainLoop
  import opened Copies
  import opened RecursivePut
  import opened PermissionPass
  import opened RecursiveGet
  import opened PreservingGet
  import opened LocalDestinations
  import opened SeveralSources

  // ------------------------------------------------------------- what the client does

  lemma GetCarriesOut(c: Copy, remote: map<string, Node>, host: string, preserve: bool)
    requires c.Valid() && Holds(remote, c.root, c.src) && c.pushes == 1
    ensures CarriesOut(ClientEnv(remote, c.cwd), false, c, GetJobs(c, host, preserve))
  {
    hide ClientEnv, IsFs, Target, IsTree, ParentFirst, Distinct, Holds, Transfers, GetJobs;
    forall fs | Over(c, fs).Valid()
      ensures
        var r := Transfers(ClientEnv(remote, c.cwd), fs, GetJobs(c, host, preserve), false);
        && (AllGood(r.1) <==> Over(c, fs).LandsFrom(0))
        && (Over(c, fs).LandsFrom(0) ==> r.0 == Over(c, fs).Progress(|c.order|))
    {
      SameGetJobs(c, fs, host, preserve);
      GetOver(Over(c, fs), remote, host, preserve);
    }
  }

  lemma SameGetJobs(c: Copy, fs: Fs, host: string, preserve: bool)
    requires Covers(c.order, c.src)
    ensures GetJobs(Over(c, fs), host, preserve) == GetJobs(c, host, preserve)
  {
    hide GetJob;
  }

  lemma GetOver(c: Copy, remote: map<string, Node>, host: string, preserve: bool)
    requires c.Valid() && Holds(remote, c.root, c.src) && c.pushes == 1
    ensures
      var r := Transfers(ClientEnv(remote, c.cwd), c.fs, GetJobs(c, host, preserve), false);
      && (AllGood(r.1) <==> c.LandsFrom(0))
      && (c.LandsFrom(0) ==> r.0 == c.Progress(|c.order|))
  {
    hide ClientEnv, IsFs, Target, IsTree, ParentFirst, Distinct, Holds, Transfers, Copy.LandsFrom,
         Copy.Progress;
    NothingYet(c);
    assert GetJobs(c, host, preserve)[0..] == GetJobs(c, host, preserve);
    GetRebuildFrom(c, remote, host, preserve, 0);
  }

  lemma GetSets(c: Copy, remote: map<string, Node>, host: string)
    requires c.Valid() && Holds(remote, c.root, c.src) && c.pushes == 1
    ensures SetsPermissions(ClientEnv(remote, c.cwd), c, GetJobs(c, host, true))
  {
    hide ClientEnv, IsFs, Target, IsTree, ParentFirst, Distinct, Holds, Posts, KeptReversed, AllOk,
         SameKinds, NoFileFor;
    var env, jobs, n := ClientEnv(remote, c.cwd), GetJobs(c, host, true), |c.order|;
    forall start | SameKinds(c.fs, start) && NoFileFor(c, start)
      ensures
        var r := Posts(env, start, KeptReversed(jobs));
        NoStream !in r.1 && r.0 == Passed(c, start, 0) && (AllMoved(r.1) <==> AllOk(c, start, n))
    {
      assert jobs[..n] == jobs && Passed(c, start, n) == start;
      LocalPermissionsFrom(c, remote, host, start, n);
      LocalPostsHaveStreams(remote, c.cwd, start, KeptReversed(jobs));
    }
  }

  // ----------------------------------------------------------------------- all of them

  ghost function AllGetJobs(cs: seq<Copy>, host: string, preserve: bool): (js: seq<seq<Job>>)
    requires AllCover(cs)
    ensures |js| == |cs| && forall i :: 0 <= i < |cs| ==> js[i] == GetJobs(cs[i], host, preserve)
  {
    seq(|cs|, i requires 0 <= i < |cs| => GetJobs(cs[i], host, preserve))
  }

  ghost predicate Gets(cs: seq<Copy>, remote: map<string, Node>, cwd: Path) {
    forall i :: 0 <= i < |cs| ==> IsGet(cs[i], remote, cwd)
  }

  ghost predicate IsGet(c: Copy, remote: map<string, Node>, cwd: Path) {
    Holds(remote, c.root, c.src) && c.pushes == 1 && c.cwd == cwd
  }

  lemma {:induction false} ConcatGets(cs: seq<Copy>, host: string, preserve: bool, i: nat)
    requires AllCover(cs) && i <= |cs|
    requires forall k :: 0 <= k < |cs| ==> cs[k].order != []
    ensures
      var jobs := Concat(AllGetJobs(cs, host, preserve), i);
      && |jobs| >= i
      && forall job :: job in jobs ==> job.preserve == preserve && job.destination.host.None?
  {
    if i == 0 {
    } else {
      ConcatGets(cs, host, preserve, i - 1);
      var c := cs[i - 1];
      assert Covers(c.order, c.src);
      hide DestinationOf, SourceOf;
      assert |GetJobs(c, host, preserve)| == |c.order|;
    }
  }

  /** The jobs of several gets succeed exactly when the entries of all can land, and the way to them stays open. */
  lemma GetsLand(cs: seq<Copy>, fs: Fs, way: set<Path>, remote: map<string, Node>, cwd: Path, host: string,
                 preserve: bool)
    requires Siblings(cs, fs, way) && AllCover(cs) && IsFs(fs) && |cs| > 1 && Gets(cs, remote, cwd)
    ensures
      var jobs := Concat(AllGetJobs(cs, host, preserve), |cs|);
      var (fs', r) := Run(ClientEnv(remote, cwd), fs, jobs);
      && r.Some?
      && (r.value.0 <==> AllLand(cs, |cs|) && (preserve ==> AllPassable(cs, way)))
      && (r.value.0 ==> AllLanded(cs, |cs|, fs, fs', preserve))
  {
    var env, js := ClientEnv(remote, cwd), AllGetJobs(cs, host, preserve);
    var jobs := Concat(js, |cs|);
    AllAreSiblings(cs, fs, way);
    hide ClientEnv, AllPassable, AllLanded, Run, Transfers, IsFs, KeptReversed, CarriesOut, SetsPermissions, Concat,
         AllLand, Siblings, Holds, Copy.Valid, Copy.Given;
    ConcatGets(cs, host, preserve, |cs|);
    assert jobs[0] in jobs;
    assert !MainLoop.Remote(jobs);
    forall i | 0 <= i < |cs|
      ensures CarriesOut(env, false, cs[i], js[i]) && (preserve ==> SetsPermissions(env, cs[i], js[i]))
    {
      assert IsGet(cs[i], remote, cwd);
      AllValid(cs, fs, way, i);
      GetCarriesOut(cs[i], remote, host, preserve);
      if preserve {
        GetSets(cs[i], remote, host);
      }
    }
    if !preserve {
      forall k | 0 <= k < |jobs| ensures !jobs[k].Kept() {
        assert jobs[k] in jobs;
      }
      NoneKept(jobs);
    }
    LocalTransfersHaveStreams(remote, cwd, fs, jobs);
    NothingIsLostLocally(remote, cwd, fs, jobs);
    RunOfAll(env, cs, fs, way, js, preserve);
  }

  // -------------------------------------------------------------------- from the listings

  function SourceJobsOf(cs: seq<Copy>, host: string, destination: string, preserve: bool): (jobs: seq<Job>)
    ensures |jobs| == |cs|
    ensures forall i :: 0 <= i < |cs| ==> jobs[i] == SourceJob(cs[i].root, host, destination, preserve)
  {
    seq(|cs|, i requires 0 <= i < |cs| => SourceJob(cs[i].root, host, destination, preserve))
  }

  /** The remote end lists what is copied. */
  ghost predicate AllListed(cs: seq<Copy>, list: Lister<Fs>, fs: Fs, host: string, destination: string, preserve: bool)
    requires AllCover(cs)
  {
    forall i :: 0 <= i < |cs| ==>
      list(fs, SourceJob(cs[i].root, host, destination, preserve)) == (fs, Some(Entries(cs[i])))
  }

  lemma {:induction false} ListingsOfAll(cs: seq<Copy>, env: Env<Fs>, list: Lister<Fs>, fs: Fs, host: string,
                                         destination: string, preserve: bool, i: nat)
    requires AllCover(cs) && AllListed(cs, list, fs, host, destination, preserve) && i <= |cs| &&
             env.open(fs) == (fs, true)
    requires forall k :: 0 <= k < |cs| ==> cs[k].Given() && cs[k].stem != ""
    requires forall k :: 0 <= k < |cs| ==> cs[k].stem == StemFor(destination, cs[k].root, false)
    ensures
      Listings(env, list, fs, SourceJobsOf(cs, host, destination, preserve)[..i], false) ==
        (fs, Some(Concat(AllGetJobs(cs, host, preserve), i)))
  {
    hide Copy.Given, StemFor, EntryJobs, GetJobs;
    var jobs := SourceJobsOf(cs, host, destination, preserve);
    if i == 0 {
      assert jobs[..0] == [];
    } else {
      ListingsOfAll(cs, env, list, fs, host, destination, preserve, i - 1);
      assert jobs[..i][..i - 1] == jobs[..i - 1];
      GivenFromTree(cs[i - 1]);
      JobsOfListing(cs[i - 1], host, destination, preserve, false);
    }
  }

  lemma GivenFromTree(c: Copy)
    requires c.Given()
    ensures c.FromTree()
  {
    hide Copy.FromTree, Target, IsFs;
  }

  lemma StemsForNames(cs: seq<Copy>, names: seq<string>, fs: Fs, cwd: Path, destination: string)
    requires Named(cs, names, fs, cwd, destination)
    requires forall i :: 0 <= i < |cs| ==> FileName(cs[i].root) == Some(names[i])
    ensures forall i :: 0 <= i < |cs| ==> cs[i].stem == StemFor(destination, cs[i].root, false) && cs[i].stem != ""
  {
    hide FileName, Copy.Given;
    forall i | 0 <= i < |cs| ensures cs[i].stem == StemFor(destination, cs[i].root, false) && cs[i].stem != "" {
      JoinedIsNot(destination, names[i]);
      NameHasNoSeparator(names[i]);
    }
  }

  lemma RunIntoThereAll<S>(env: Env<S>, list: Lister<S>, s: S, jobs: seq<Job>, destination: string, newJobs: seq<Job>)
    requires jobs != [] && jobs[0].destination.filename == destination && env.stat(s, destination) == IsOther
    requires Listings(env, list, s, jobs, false) == (s, Some(newJobs))
    ensures GetRun(env, list, s, jobs, true) == Run(env, s, newJobs)
  {
    hide Run, Listings;
  }

  /**
   A recursive get of several sources of different names into an open directory
   succeeds exactly when every entry of each can land at the entry of that name,
   and, if permissions are set, the text of the destination leads through no closed
   directory of any, the first root aside. Then everything is in its place, and
   nothing else has changed.
   */
  lemma GetAll(cs: seq<Copy>, names: seq<string>, fs: Fs, cwd: Path, d: Path, remote: map<string, Node>, host: string,
               destination: string, preserve: bool, list: Lister<Fs>)
    requires Named(cs, names, fs, cwd, destination) && |cs| > 1 && Gets(cs, remote, cwd)
    requires Find(fs, cwd, destination) == Ok(d) && fs[d] == Dir(true) && IsFs(fs)
    requires forall i :: 0 <= i < |cs| ==> FileName(cs[i].root) == Some(names[i])
    requires AllCover(cs) && AllListed(cs, list, fs, host, destination, preserve)
    ensures forall i :: 0 <= i < |cs| ==> cs[i].t == d + [names[i]]
    ensures
      var (fs', r) := GetRun(ClientEnv(remote, cwd), list, fs, SourceJobsOf(cs, host, destination, preserve), true);
      && r.Some?
      && (r.value.0 <==> AllLand(cs, |cs|) && (preserve ==> AllPassable(cs, WayInto(cwd, destination, d))))
      && (r.value.0 ==> AllLanded(cs, |cs|, fs, fs', preserve))
  {
    IntoThere(fs, cwd, cs[0].root, destination, d);
    hide Copy.Given, Siblings, IsFs, Find, WayInto, ClientEnv, AllPassable, AllLanded, AllLand, Run, Gets, Concat,
         GetJobs, FileName, IsName, Meta, GetRun, Listings, AllListed, StemFor, SourceJobsOf, AllGetJobs;
    var way, jobs := WayInto(cwd, destination, d), SourceJobsOf(cs, host, destination, preserve);
    NamedAreSiblings(cs, names, fs, cwd, destination, d);
    StemsForNames(cs, names, fs, cwd, destination);
    ClientEnvIs(remote, cwd, fs, destination);
    AllAreSiblings(cs, fs, way);
    ListingsOfAll(cs, ClientEnv(remote, cwd), list, fs, host, destination, preserve, |cs|);
    assert jobs[..|cs|] == jobs;
    RunIntoThereAll(ClientEnv(remote, cwd), list, fs, jobs, destination, Concat(AllGetJobs(cs, host, preserve), |cs|));
    GetsLand(cs, fs, way, remote, cwd, host, preserve);
  }
}
