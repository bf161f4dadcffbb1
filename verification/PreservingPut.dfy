/**
 The permission pass of a recursive put, and the whole run: a copy that preserves
 permissions lays the source tree over the destination exactly when nothing there
 is in its way, and the text of the destination does not lead through a directory
 of the copy that gets closed.
 */
module PreservingPut {
  import opened Wrappers
  import opened Paths
  import opened RemoteFs
  import opened RemotePaths
  import opened MainLoop
  import opened Routes
  import opened Copies
  import opened RecursivePut
  import opened PermissionPass

  // ------------------------------------------------------------------ one visit

  ghost function Visit(c: Copy, local: map<string, Node>, start: Fs, i: nat): Result<(Fs, nat), ()>
    requires i < |c.order| && Covers(c.order, c.src)
  {
    Send(local, c.cwd, Passed(c, start, i + 1), JobFor(c.root, "", c.stem, c.src, false, c.order[i]), Post)
  }

  lemma VisitIs(c: Copy, local: map<string, Node>, start: Fs, i: nat)
    requires c.Valid() && Holds(local, c.root, c.src) && SameKinds(c.fs, start)
    requires i < |c.order| && c.src[c.order[i]].Dir?
    ensures Visit(c, local, start, i) == if VisitOk(c, start, i) then Ok((Passed(c, start, i), 0)) else Err(())
  {
    hide IsTree, IsFs, Target, ParentFirst, Distinct, Holds, SetPermissions, MakeDirectory, PutFile, DestinationOf,
         SourceOf, FileName, Reached, TargetRoute, Open;
    var r, s := c.order[i], Passed(c, start, i + 1);
    assert r in c.src;
    EntryIsNamed(c.src, r);
    SourceHeld(c, local, r);
    if r == [] {
      RootComesFirst(c, i);
    }
    PassedKinds(c, start, i + 1);
    SetsWhere(c.fs, s, c.cwd, c.stem, c.t, r, c.src[r].open);
  }

  // ------------------------------------------------------------- the permission pass

  lemma VisitOne(c: Copy, local: map<string, Node>, host: string, start: Fs, i: nat)
    requires c.Valid() && i < |c.order|
    ensures
      var jobs, env, s := Jobs(c, host, true), ServerEnv(local, c.cwd), Passed(c, start, i + 1);
      var all := Posts(env, s, KeptReversed(jobs[..i + 1]));
      if c.src[c.order[i]].File? then all == Posts(env, s, KeptReversed(jobs[..i]))
      else
        match Visit(c, local, start, i)
        case Err(_) => all.0 == Posts(env, s, KeptReversed(jobs[..i])).0 && !AllMoved(all.1)
        case Ok((fs', bytes)) =>
          var later := Posts(env, fs', KeptReversed(jobs[..i]));
          all.0 == later.0 && all.1 == [Moved(Stats(bytes, 0))] + later.1
  {
    hide ServerEnv, Request, Send, IsTree, IsFs, Target, ParentFirst, Distinct, DestinationOf, SourceOf, Passed,
         KeptReversed, Posts;
    var jobs, s := Jobs(c, host, true), Passed(c, start, i + 1);
    RequestIsSend(local, c.cwd, s, jobs[i], Post);
    SendIgnores(local, c.cwd, s, c.root, host, c.stem, c.src, true, c.order[i], Post);
    PostsStep(ServerEnv(local, c.cwd), s, jobs, i, []);
    PostsStep(ServerEnv(local, c.cwd), s, jobs, i, [Failed]);
    var all := Posts(ServerEnv(local, c.cwd), s, KeptReversed(jobs[..i + 1])).1;
    assert [] + all == all;
    if c.src[c.order[i]].Dir? && Visit(c, local, start, i).Err? {
      FirstFailed(ServerEnv(local, c.cwd), s, jobs, i);
    }
  }

  lemma FirstFailed<S>(env: Env<S>, s: S, jobs: seq<Job>, i: nat)
    requires i < |jobs| && jobs[i].Kept() && Request(env, s, jobs[i], Post).1.Failed?
    ensures !AllMoved(Posts(env, s, KeptReversed(jobs[..i + 1])).1)
  {
    assert jobs[..i + 1][..i] == jobs[..i];
    var kept := KeptReversed(jobs[..i + 1]);
    assert kept[0] == jobs[i];
    assert Posts(env, s, kept).1[0] == Failed;
  }

  lemma MovedAfterMoved(stats: Stats, os: seq<Outcome>)
    ensures AllMoved([Moved(stats)] + os) <==> AllMoved(os)
  {
    if AllMoved([Moved(stats)] + os) {
      forall i | 0 <= i < |os| ensures os[i].Moved? {
        assert ([Moved(stats)] + os)[i + 1] == os[i];
      }
    }
  }

  lemma AllOkStep(c: Copy, start: Fs, i: nat)
    requires Covers(c.order, c.src) && i < |c.order|
    ensures AllOk(c, start, i + 1) <==> AllOk(c, start, i) && (c.src[c.order[i]].Dir? ==> VisitOk(c, start, i))
  {
    hide VisitOk;
  }

  /**
   From any state, the pass leaves what `Passed` says, and succeeds exactly when
   every directory is reached in its turn.
   */
  lemma {:induction false} PermissionsFrom(c: Copy, local: map<string, Node>, host: string, start: Fs, i: nat)
    requires c.Valid() && Holds(local, c.root, c.src) && SameKinds(c.fs, start) && i <= |c.order|
    ensures
      var r := Posts(ServerEnv(local, c.cwd), Passed(c, start, i), KeptReversed(Jobs(c, host, true)[..i]));
      r.0 == Passed(c, start, 0) && (AllMoved(r.1) <==> AllOk(c, start, i))
  {
    hide ServerEnv, IsTree, IsFs, Target, ParentFirst, Distinct, Passed, Holds, JobsFor, Visit, Posts, KeptReversed,
         VisitOk, AllOk, SameKinds;
    var jobs := Jobs(c, host, true);
    if i == 0 {
      assert jobs[..0] == [];
      PostsOfNone(ServerEnv(local, c.cwd), Passed(c, start, 0));
      assert AllOk(c, start, 0) by {
        NoneToVisit(c, start);
      }
    } else {
      VisitOne(c, local, host, start, i - 1);
      PermissionsFrom(c, local, host, start, i - 1);
      AllOkStep(c, start, i - 1);
      if c.src[c.order[i - 1]].Dir? {
        VisitIs(c, local, start, i - 1);
        if !VisitOk(c, start, i - 1) {
          NotOkStays(c, start, i - 1);
        }
        var later := Posts(ServerEnv(local, c.cwd), Passed(c, start, i - 1), KeptReversed(jobs[..i - 1]));
        MovedAfterMoved(Stats(0, 0), later.1);
      } else {
        NotVisited(c, start, i - 1);
      }
    }
  }

  lemma NoneToVisit(c: Copy, start: Fs)
    requires Covers(c.order, c.src)
    ensures AllOk(c, start, 0)
  {
  }

  lemma NotOkStays(c: Copy, start: Fs, i: nat)
    requires Covers(c.order, c.src) && i < |c.order| && !VisitOk(c, start, i)
    ensures Passed(c, start, i) == Passed(c, start, i + 1)
  {
  }

  // -------------------------------------------------------------------- the whole run

  /** The pass after transfers that did what they should. */
  lemma PassAfterTransfers(c: Copy, local: map<string, Node>, host: string)
    requires c.Valid() && Holds(local, c.root, c.src) && c.LandsFrom(0) && |c.order| > 1
    ensures
      var jobs := Jobs(c, host, true);
      var r := Posts(ServerEnv(local, c.cwd), c.Progress(|c.order|), PostJobs(jobs));
      && (AllMoved(r.1) <==> Passable(c))
      && (AllMoved(r.1) ==> c.Landed(r.0, true))
  {
    hide ServerEnv, IsTree, IsFs, Target, ParentFirst, Distinct, Holds, JobsFor, Posts, KeptReversed, Copy.Progress,
         Copy.Lands, Passable, Copy.Landed, AllOk, Open, Reached, TargetRoute;
    var jobs, n := Jobs(c, host, true), |c.order|;
    assert jobs[..|jobs|] == jobs;
    ProgressGrows(c, n);
    assert SameKinds(c.fs, c.Progress(n));
    PermissionsFrom(c, local, host, c.Progress(n), n);
    TransfersReach(c);
    AllOkIff(c, c.Progress(n));
    if Passable(c) {
      PassLanded(c);
    }
  }

  /**
   A run that preserves permissions succeeds exactly when the destination leads
   somewhere, every entry can land there, and the destination does not lead
   through a directory of the copy that is closed. Then each entry is in its
   place with contents and permissions, and nothing else has changed. Each place
   is the entry's own below the target exactly when none is a file over a
   directory.
   */
  lemma PreservingCopy(c: Copy, local: map<string, Node>, host: string)
    requires c.Given() && Holds(local, c.root, c.src) && |c.order| > 1 && c.pushes == 2
    ensures
      var (fs', r) := Run(ServerEnv(local, c.cwd), c.fs, Jobs(c, host, true));
      && r.Some?
      && (r.value.0 <==> c.Valid() && c.LandsFrom(0) && Passable(c))
      && (r.value.0 ==> c.Landed(fs', true))
      && (r.value.0 && c.Rebuilt(fs', true) <==> c.Valid() && c.FitsFrom(0) && Passable(c))
  {
    hide ServerEnv, IsTree, IsFs, Target, ParentFirst, Distinct, Holds, JobsFor, Transfers, Posts, PostJobs, Total,
         Copy.Progress, Passable, Copy.Lands, Copy.Fits, Copy.Landed, Copy.Rebuilt, ByteSum, IsPeak;
    var jobs, n := Jobs(c, host, true), |c.order|;
    var env := ServerEnv(local, c.cwd);
    if c.Valid() {
      JobsAreRemote(c, host, true);
      NothingYet(c);
      assert jobs[0..] == jobs;
      RebuildFrom(c, local, host, true, 0);
      NothingIsLost(local, c.cwd, c.fs, jobs);
      SuccessMeansAllDone(env, c.fs, jobs);
      if c.LandsFrom(0) {
        PassAfterTransfers(c, local, host);
        var s := Posts(env, c.Progress(n), PostJobs(jobs)).0;
        if c.Landed(s, true) {
          LandedIsRebuilt(c, s, true);
        }
      } else if c.FitsFrom(0) {
        FitsAreLands(c);
      }
    } else {
      NowhereToGo(c, local, host, true);
    }
  }
}
