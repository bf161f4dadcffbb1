/**
 The permission pass of a recursive get: the modes that the listing gave are set
 on the local directories, last first.
 */
module PreservingGet {
  import opened Wrappers
  import opened Paths
  import opened RemoteFs
  import opened RemotePaths
  import opened MainLoop
  import opened Routes
  import opened Copies
  import opened RecursivePut
  import opened PermissionPass
  import opened PreservingPut
  import opened RecursiveGet

  // ------------------------------------------------------------------ one local visit

  lemma RequestIsFetch(remote: map<string, Node>, cwd: Path, fs: Fs, job: Job, phase: Phase)
    ensures Request(ClientEnv(remote, cwd), fs, job, phase) ==
            match Fetch(remote, cwd, fs, job, phase)
            case Ok((fs', bytes)) => (fs', Moved(Stats(bytes, 0)))
            case Err(_) => (fs, Failed)
  {
  }

  lemma FetchIgnores(remote: map<string, Node>, cwd: Path, fs: Fs, root: string, host: string, stem: string, src: Fs,
                     preserve: bool, r: Path, phase: Phase)
    requires r in src
    ensures Fetch(remote, cwd, fs, GetJob(root, host, stem, src, preserve, r), phase) ==
            Fetch(remote, cwd, fs, GetJob(root, "", stem, src, false, r), phase)
  {
  }

  /** The text of an entry in the local tree. */
  function LocalText(stem: string, r: Path): string {
    if r == [] then stem else DestinationOf(stem, r)
  }

  /** Whatever else changes, the root's text leads to the target or nowhere. */
  lemma FoundAtTarget(fs: Fs, fs0: Fs, cwd: Path, stem: string, t: Path)
    requires Target(fs0, cwd, stem) == Some(t) && stem != ""
    ensures Find(fs, cwd, stem).Ok? ==> Find(fs, cwd, stem) == Ok(t)
  {
    StemParts(stem);
    hide Look, BaseParts, Target, Split, IsAbsolute;
    var at := Start(cwd, stem);
    if Look(fs, at, Split(stem)).Ok? {
      LookIsWalk(fs, at, Split(stem));
      WalkWithoutTrailing(at, Split(stem));
      WalkWithoutTrailing(at, BaseParts(stem));
      TargetIsWalk(fs0, cwd, stem, t);
    }
  }

  lemma FoundLocally(fs: Fs, fs0: Fs, cwd: Path, stem: string, t: Path, r: Path)
    requires Target(fs0, cwd, stem) == Some(t) && AreNames(r) && (stem != "" || r != [])
    ensures Find(fs, cwd, LocalText(stem, r)).Ok? ==> Find(fs, cwd, LocalText(stem, r)) == Ok(t + r)
  {
    hide Find, Target, DestinationOf;
    if r == [] {
      assert t + r == t;
      FoundAtTarget(fs, fs0, cwd, stem, t);
    } else {
      FoundAtEntry(fs, fs0, cwd, stem, t, r);
    }
  }

  lemma TargetFound(fs: Fs, cwd: Path, stem: string, t: Path)
    requires stem != "" && Target(fs, cwd, stem) == Some(t) && t in fs && fs[t].Dir?
    ensures Find(fs, cwd, stem) == Ok(t)
  {
    StemParts(stem);
    BaseFound(fs, cwd, stem, t);
    hide Look, BaseParts, Target, Split, IsAbsolute;
    if Split(stem) == BaseParts(stem) + [""] {
      LookAppend(fs, Start(cwd, stem), BaseParts(stem), [""]);
      LookOne(fs, t, "");
    }
  }

  /** The root's text is found exactly when the directory is reached, as long as the target is. */
  lemma TargetFoundWhere(fs: Fs, s: Fs, cwd: Path, stem: string, t: Path)
    requires Target(fs, cwd, stem) == Some(t) && SameKinds(fs, s) && stem != "" && !(t in s && s[t].File?)
    ensures Find(s, cwd, stem).Ok? <==> Open(s, TargetRoute(cwd, stem)) && t in s
  {
    StemParts(stem);
    FoundAtTarget(s, fs, cwd, stem, t);
    hide Look, BaseParts, Target, Split, IsAbsolute;
    if Find(s, cwd, stem).Ok? {
      LookWithoutTrailing(s, Start(cwd, stem), Split(stem));
      LookIsWalk(s, Start(cwd, stem), DropTrailing(BaseParts(stem)));
    }
    if Open(s, TargetRoute(cwd, stem)) && t in s {
      TargetSameKinds(fs, s, cwd, stem);
      TargetFound(s, cwd, stem, t);
    }
  }

  /** A directory of the copy is found exactly when it is reached, as long as the target is. */
  lemma FoundWhere(fs: Fs, s: Fs, cwd: Path, stem: string, t: Path, r: Path)
    requires Target(fs, cwd, stem) == Some(t) && SameKinds(fs, s) && AreNames(r) && (stem != "" || r != [])
    requires !(t + r in s && s[t + r].File?)
    ensures Find(s, cwd, LocalText(stem, r)).Ok? <==> Open(s, TargetRoute(cwd, stem)) && Reached(s, t, r)
    ensures Find(s, cwd, LocalText(stem, r)).Ok? ==> Find(s, cwd, LocalText(stem, r)) == Ok(t + r)
  {
    FoundLocally(s, fs, cwd, stem, t, r);
    if r == [] {
      assert t + r == t;
      TargetFoundWhere(fs, s, cwd, stem, t);
      RootReached(s, t);
    } else {
      SetsWhere(fs, s, cwd, stem, t, r, true);
    }
    hide Find, Target, DestinationOf, TargetRoute, Open, Reached;
  }

  lemma RootReached(s: Fs, t: Path)
    ensures Reached(s, t, []) <==> t in s && s[t].Dir?
  {
    assert t + [] == t;
  }

  ghost function LocalVisit(c: Copy, remote: map<string, Node>, start: Fs, i: nat): Result<(Fs, nat), ()>
    requires i < |c.order| && Covers(c.order, c.src)
  {
    Fetch(remote, c.cwd, Passed(c, start, i + 1), GetJob(c.root, "", c.stem, c.src, false, c.order[i]), Post)
  }

  lemma StillNoFile(c: Copy, start: Fs, i: nat)
    requires c.Given() && NoFileFor(c, start) && i < |c.order| && c.src[c.order[i]].Dir?
    ensures
      var s := Passed(c, start, i + 1);
      !(c.t + c.order[i] in s && s[c.t + c.order[i]].File?)
  {
    hide IsTree, IsFs, Target, ParentFirst, Passed;
    forall j | i + 1 <= j < |c.order| ensures c.t + c.order[j] != c.t + c.order[i] {
      DifferentEntries(c, i, j);
    }
    PassedElsewhere(c, start, i + 1, c.t + c.order[i]);
  }

  lemma LocalVisitIs(c: Copy, remote: map<string, Node>, start: Fs, i: nat)
    requires c.Valid() && Holds(remote, c.root, c.src) && SameKinds(c.fs, start) && NoFileFor(c, start)
    requires i < |c.order| && c.src[c.order[i]].Dir?
    ensures LocalVisit(c, remote, start, i) == if VisitOk(c, start, i) then Ok((Passed(c, start, i), 0)) else Err(())
  {
    hide IsTree, IsFs, Target, ParentFirst, Distinct, Holds, DestinationOf, SourceOf, FileName, Find, CreateOrTruncate,
         TargetRoute, Open;
    var r, s := c.order[i], Passed(c, start, i + 1);
    assert r in c.src;
    EntryIsNamed(c.src, r);
    SourceHeld(c, remote, r);
    if r == [] {
      RootComesFirst(c, i);
    }
    PassedKinds(c, start, i + 1);
    StillNoFile(c, start, i);
    FoundWhere(c.fs, s, c.cwd, c.stem, c.t, r);
  }

  // ---------------------------------------------------------------- the permission pass

  lemma LocalVisitOne(c: Copy, remote: map<string, Node>, host: string, start: Fs, i: nat)
    requires c.Valid() && i < |c.order|
    ensures
      var jobs, env, s := GetJobs(c, host, true), ClientEnv(remote, c.cwd), Passed(c, start, i + 1);
      var all := Posts(env, s, KeptReversed(jobs[..i + 1]));
      if c.src[c.order[i]].File? then all == Posts(env, s, KeptReversed(jobs[..i]))
      else
        match LocalVisit(c, remote, start, i)
        case Err(_) => all.0 == Posts(env, s, KeptReversed(jobs[..i])).0 && !AllMoved(all.1)
        case Ok((fs', bytes)) =>
          var later := Posts(env, fs', KeptReversed(jobs[..i]));
          all.0 == later.0 && all.1 == [Moved(Stats(bytes, 0))] + later.1
  {
    hide ClientEnv, Request, Fetch, IsTree, IsFs, Target, ParentFirst, Distinct, DestinationOf, SourceOf, Passed,
         KeptReversed, Posts;
    var jobs, s := GetJobs(c, host, true), Passed(c, start, i + 1);
    RequestIsFetch(remote, c.cwd, s, jobs[i], Post);
    FetchIgnores(remote, c.cwd, s, c.root, host, c.stem, c.src, true, c.order[i], Post);
    PostsStep(ClientEnv(remote, c.cwd), s, jobs, i, []);
    PostsStep(ClientEnv(remote, c.cwd), s, jobs, i, [Failed]);
    var all := Posts(ClientEnv(remote, c.cwd), s, KeptReversed(jobs[..i + 1])).1;
    assert [] + all == all;
    if c.src[c.order[i]].Dir? && LocalVisit(c, remote, start, i).Err? {
      FirstFailed(ClientEnv(remote, c.cwd), s, jobs, i);
    }
  }

  /**
   From any state, the pass leaves what `Passed` says, and succeeds exactly when
   every directory is reached in its turn.
   */
  lemma {:induction false} LocalPermissionsFrom(c: Copy, remote: map<string, Node>, host: string, start: Fs, i: nat)
    requires c.Valid() && Holds(remote, c.root, c.src) && SameKinds(c.fs, start) && NoFileFor(c, start) &&
             i <= |c.order|
    ensures
      var r := Posts(ClientEnv(remote, c.cwd), Passed(c, start, i), KeptReversed(GetJobs(c, host, true)[..i]));
      r.0 == Passed(c, start, 0) && (AllMoved(r.1) <==> AllOk(c, start, i))
  {
    hide ClientEnv, IsTree, IsFs, Target, ParentFirst, Distinct, Passed, Holds, GetJobs, LocalVisit, Posts,
         KeptReversed, VisitOk, AllOk, SameKinds, NoFileFor;
    var jobs := GetJobs(c, host, true);
    if i == 0 {
      assert jobs[..0] == [];
      PostsOfNone(ClientEnv(remote, c.cwd), Passed(c, start, 0));
      NoneToVisit(c, start);
    } else {
      LocalVisitOne(c, remote, host, start, i - 1);
      LocalPermissionsFrom(c, remote, host, start, i - 1);
      AllOkStep(c, start, i - 1);
      if c.src[c.order[i - 1]].Dir? {
        LocalVisitIs(c, remote, start, i - 1);
        if !VisitOk(c, start, i - 1) {
          NotOkStays(c, start, i - 1);
        }
        var later := Posts(ClientEnv(remote, c.cwd), Passed(c, start, i - 1), KeptReversed(jobs[..i - 1]));
        MovedAfterMoved(Stats(0, 0), later.1);
      } else {
        NotVisited(c, start, i - 1);
      }
    }
  }

  lemma ReachedAreNoFiles(c: Copy)
    requires c.Valid() && c.LandsFrom(0)
    ensures NoFileFor(c, c.Progress(|c.order|))
  {
    hide IsTree, IsFs, Target, ParentFirst, Distinct, Copy.Progress, Copy.Lands;
    forall j | 0 <= j < |c.order| && c.src[c.order[j]].Dir?
      ensures c.t + c.order[j] in c.Progress(|c.order|) && c.Progress(|c.order|)[c.t + c.order[j]].Dir?
    {
      DirectoryArrives(c, j);
    }
  }

  lemma LocalPassAfterTransfers(c: Copy, remote: map<string, Node>, host: string)
    requires c.Valid() && Holds(remote, c.root, c.src) && c.LandsFrom(0) && |c.order| > 1
    ensures
      var jobs := GetJobs(c, host, true);
      var r := Posts(ClientEnv(remote, c.cwd), c.Progress(|c.order|), PostJobs(jobs));
      && (AllMoved(r.1) <==> Passable(c))
      && (AllMoved(r.1) ==> c.Landed(r.0, true))
  {
    hide ClientEnv, IsTree, IsFs, Target, ParentFirst, Distinct, Holds, GetJobs, Posts, KeptReversed, Copy.Progress,
         Copy.Lands, Passable, Copy.Landed, AllOk, Open, Reached, TargetRoute, NoFileFor;
    var jobs, n := GetJobs(c, host, true), |c.order|;
    assert jobs[..|jobs|] == jobs;
    ProgressGrows(c, n);
    assert SameKinds(c.fs, c.Progress(n));
    ReachedAreNoFiles(c);
    LocalPermissionsFrom(c, remote, host, c.Progress(n), n);
    TransfersReach(c);
    AllOkIff(c, c.Progress(n));
    if Passable(c) {
      PassLanded(c);
    }
  }

  lemma {:induction false} LocalPostsHaveStreams(remote: map<string, Node>, cwd: Path, fs: Fs, jobs: seq<Job>)
    ensures NoStream !in Posts(ClientEnv(remote, cwd), fs, jobs).1
    decreases |jobs|
  {
    hide ClientEnv, Request, Fetch;
    if jobs == [] {
    } else {
      RequestIsFetch(remote, cwd, fs, jobs[0], Post);
      LocalPostsHaveStreams(remote, cwd, Request(ClientEnv(remote, cwd), fs, jobs[0], Post).0, jobs[1..]);
    }
  }

  /**
   The transfers and the permission pass of a get succeed exactly when every entry
   can land at the local target, and the text of the target does not lead through
   a directory of the copy that gets closed; then each entry is in its place with
   contents and permissions.
   */
  lemma PreservingGetCopies(c: Copy, remote: map<string, Node>, host: string)
    requires c.Valid() && Holds(remote, c.root, c.src) && |c.order| > 1 && c.pushes == 1
    ensures
      var (fs', r) := Run(ClientEnv(remote, c.cwd), c.fs, GetJobs(c, host, true));
      && r.Some?
      && (r.value.0 <==> c.LandsFrom(0) && Passable(c))
      && (r.value.0 ==> c.Landed(fs', true))
      && (r.value.0 && c.Rebuilt(fs', true) <==> c.FitsFrom(0) && Passable(c))
  {
    hide ClientEnv, IsTree, IsFs, Target, ParentFirst, Distinct, Holds, Transfers, Posts, PostJobs, Total,
         Copy.Lands, Copy.Fits, Copy.Progress, Copy.Landed, Copy.Rebuilt, ByteSum, IsPeak, Passable;
    var env, jobs, n := ClientEnv(remote, c.cwd), GetJobs(c, host, true), |c.order|;
    NothingYet(c);
    assert jobs[0..] == jobs;
    GetRebuildFrom(c, remote, host, true, 0);
    LocalPostsHaveStreams(remote, c.cwd, Transfers(env, c.fs, jobs, false).0, PostJobs(jobs));
    SuccessMeansAllDone(env, c.fs, jobs);
    if c.LandsFrom(0) {
      LocalPassAfterTransfers(c, remote, host);
      var s := Posts(env, c.Progress(n), PostJobs(jobs)).0;
      if c.Landed(s, true) {
        LandedIsRebuilt(c, s, true);
      }
    } else if c.FitsFrom(0) {
      FitsAreLands(c);
    }
  }

  // --------------------------------------------------------------------- every run

  lemma FetchKeepsKinds(remote: map<string, Node>, cwd: Path, fs: Fs, job: Job)
    ensures SameKinds(fs, Request(ClientEnv(remote, cwd), fs, job, Post).0)
  {
    hide ClientEnv, Request, Find, CreateOrTruncate, FileName;
    RequestIsFetch(remote, cwd, fs, job, Post);
  }

  lemma {:induction false} LocalTransfersHaveStreams(remote: map<string, Node>, cwd: Path, fs: Fs, jobs: seq<Job>)
    ensures NoStream !in Transfers(ClientEnv(remote, cwd), fs, jobs, false).1
    decreases |jobs|
  {
    hide ClientEnv, Perform;
    if jobs == [] {
    } else {
      StreamsOpen(remote, cwd, fs, jobs[0]);
      LocalTransfersHaveStreams(remote, cwd, Perform(ClientEnv(remote, cwd), fs, jobs[0], false).0, jobs[1..]);
    }
  }

  lemma {:induction false} LocalPostsKeepKinds(remote: map<string, Node>, cwd: Path, fs: Fs, jobs: seq<Job>)
    ensures SameKinds(fs, Posts(ClientEnv(remote, cwd), fs, jobs).0)
    decreases |jobs|
  {
    hide ClientEnv, Request;
    if jobs == [] {
    } else {
      FetchKeepsKinds(remote, cwd, fs, jobs[0]);
      LocalPostsKeepKinds(remote, cwd, Request(ClientEnv(remote, cwd), fs, jobs[0], Post).0, jobs[1..]);
    }
  }

  /**
   No run of whatever jobs to the local end, successful or not, removes anything
   or turns a file into a directory or back.
   */
  lemma NothingIsLostLocally(remote: map<string, Node>, cwd: Path, fs: Fs, jobs: seq<Job>)
    requires !MainLoop.Remote(jobs)
    ensures
      var (fs', r) := Run(ClientEnv(remote, cwd), fs, jobs);
      r.Some? && SameKinds(fs, fs')
  {
    hide ClientEnv, Transfers, Posts, PostJobs, Total;
    var env := ClientEnv(remote, cwd);
    GetTransfersGrow(remote, cwd, fs, jobs);
    LocalTransfersHaveStreams(remote, cwd, fs, jobs);
    LocalPostsKeepKinds(remote, cwd, Transfers(env, fs, jobs, false).0, PostJobs(jobs));
    LocalPostsHaveStreams(remote, cwd, Transfers(env, fs, jobs, false).0, PostJobs(jobs));
  }

  lemma {:induction false} ListingsLeave(remote: map<string, Node>, cwd: Path, list: Lister<Fs>, fs: Fs, jobs: seq<Job>,
                                         intoNew: bool)
    requires forall s, job :: list(s, job).0 == s
    requires forall job :: job in jobs ==> job.destination.host.None?
    ensures
      var (fs', newJobs) := Listings(ClientEnv(remote, cwd), list, fs, jobs, intoNew);
      fs' == fs && (newJobs.Some? ==> forall job :: job in newJobs.value ==> job.destination.host.None?)
  {
    hide StemFor, LocalName, LeafOf;
    if jobs == [] {
    } else {
      ClientEnvIs(remote, cwd, fs, "");
      ListingsLeave(remote, cwd, list, fs, jobs[..|jobs| - 1], intoNew);
    }
  }

  lemma ClientEnvIs(remote: map<string, Node>, cwd: Path, fs: Fs, name: string)
    ensures
      var env := ClientEnv(remote, cwd);
      && env.open(fs) == (fs, true) && env.stat(fs, name) == Meta(fs, cwd, name)
      && env.createAll(fs, name) ==
         (CreateAll(fs, cwd, name).0, if CreateAll(fs, cwd, name).1 then Created else NotCreated)
  {
    hide Meta, CreateAll, Fetch;
  }

  /**
   Nor does a recursive get as a whole, whatever the remote end lists, with the
   late making of its destination, and however it ends.
   */
  lemma GetLosesNothing(remote: map<string, Node>, cwd: Path, list: Lister<Fs>, fs: Fs, jobs: seq<Job>, supported: bool)
    requires jobs != [] && forall job :: job in jobs ==> job.destination.host.None?
    requires forall s, job :: list(s, job).0 == s
    ensures SameKinds(fs, GetRun(ClientEnv(remote, cwd), list, fs, jobs, supported).0)
  {
    hide ClientEnv, Run, Listings, Meta, CreateAllAt, Split;
    var env, destination := ClientEnv(remote, cwd), jobs[0].destination.filename;
    var intoNew := env.stat(fs, destination) == Absent;
    ClientEnvIs(remote, cwd, fs, destination);
    ListingsLeave(remote, cwd, list, fs, jobs, intoNew);
    CreateAllGrows(fs, Start(cwd, destination), Split(destination));
    var made := CreateAll(fs, cwd, destination).0;
    assert Grows(fs, made);
    var newJobs := Listings(env, list, fs, jobs, intoNew).1;
    if newJobs.Some? {
      NothingIsLostLocally(remote, cwd, fs, newJobs.value);
      NothingIsLostLocally(remote, cwd, made, newJobs.value);
    }
  }
}
