/**
 A put that fails half way: the transfers stop at the first entry that cannot
 land, and then the permission pass visits the directories of the whole copy.
 */
module FailedPut {
  import opened RemoteFs
  import opened RemotePaths
  import opened MainLoop
  import opened Copies
  import opened RecursivePut
  import opened Routes
  import opened PermissionPass
  import opened PreservingPut

  // --------------------------------------------------------------- the transfers

  /** The copy of the entries before `k` alone. */
  ghost function Shortened(c: Copy, k: nat): Copy
    requires k <= |c.order|
  {
    c.(order := c.order[..k])
  }

  lemma ShortenedIsValid(c: Copy, k: nat)
    requires c.Valid() && k <= |c.order|
    ensures Shortened(c, k).Valid()
  {
    hide IsTree, IsFs, Target;
    var order := c.order[..k];
    forall i | 0 <= i < |order| ensures Follows(order, c.First(), i) {
      assert Follows(c.order, c.First(), i) && order[..i] == c.order[..i];
    }
  }

  lemma {:induction false} SameProgress(c: Copy, k: nat, i: nat)
    requires Covers(c.order, c.src) && i <= k <= |c.order|
    ensures Covers(Shortened(c, k).order, c.src) && Shortened(c, k).Progress(i) == c.Progress(i)
  {
    if i == 0 {
    } else {
      SameProgress(c, k, i - 1);
    }
  }

  /** The state at which the transfers stop has exactly the entries before `k` in their places. */
  lemma ProgressIsShortened(c: Copy, k: nat)
    requires c.Valid() && k <= |c.order|
    ensures Covers(Shortened(c, k).order, c.src) && Shortened(c, k).Landed(c.Progress(k), false)
  {
    hide IsTree, IsFs, ParentFirst, Distinct, Target, Copy.Progress, Copy.Landed;
    ShortenedIsValid(c, k);
    SameProgress(c, k, k);
    ProgressLanded(Shortened(c, k));
  }

  /** Some entry is the first that cannot land. */
  ghost predicate FirstFailure(c: Copy, k: nat)
    requires Covers(c.order, c.src)
  {
    k < |c.order| && c.LandsUpTo(k) && !c.Lands(c.order[k])
  }

  lemma {:induction false} SomethingFails(c: Copy, i: nat) returns (k: nat)
    requires Covers(c.order, c.src) && i <= |c.order| && c.LandsUpTo(i) && !c.LandsFrom(i)
    ensures FirstFailure(c, k)
    decreases |c.order| - i
  {
    hide Copy.Lands;
    if i < |c.order| && c.Lands(c.order[i]) {
      k := SomethingFails(c, i + 1);
    } else {
      k := i;
    }
  }

  // ------------------------------------------------------------------ the whole run

  /**
   A run whose first entry that cannot land is `k` reports failure, with the
   bytes of the entries before it. Those are in their places; then the
   permission pass, if there is one, visits all the directories of the copy.
   */
  lemma FailedRun(c: Copy, local: map<string, Node>, host: string, preserve: bool, k: nat)
    requires c.Valid() && Holds(local, c.root, c.src) && c.pushes == 2 && FirstFailure(c, k)
    ensures
      var (fs', r) := Run(ServerEnv(local, c.cwd), c.fs, Jobs(c, host, preserve));
      && r.Some? && !r.value.0 && r.value.1.bytes == SizeBetween(c, 0, k)
      && fs' == if c.Sets(preserve) then Passed(c, c.Progress(k), 0) else c.Progress(k)
  {
    hide ServerEnv, IsTree, IsFs, Target, ParentFirst, Distinct, Holds, JobsFor, Transfers, Posts, KeptReversed, Total,
         Copy.Progress, Copy.Lands, ByteSum, IsPeak;
    var jobs, env := Jobs(c, host, preserve), ServerEnv(local, c.cwd);
    JobsAreRemote(c, host, preserve);
    NothingYet(c);
    assert jobs[0..] == jobs && jobs[..|jobs|] == jobs;
    StopsAt(c, local, host, preserve, 0, k);
    NothingIsLost(local, c.cwd, c.fs, jobs);
    SuccessMeansAllDone(env, c.fs, jobs);
    if c.Sets(preserve) {
      WayOpenAt(c, k);
      PermissionsFrom(c, local, host, c.Progress(k), |c.order|);
    } else {
      if |jobs| > 1 {
        NoneKept(jobs);
      }
      PostsOfNone(env, c.Progress(k));
    }
  }

  // --------------------------------------------------------- what the pass leaves behind

  /** Entry `i` of the copy is a directory that can be reached when the transfers have stopped. */
  ghost predicate Visited(c: Copy, k: nat, i: nat)
    requires Covers(c.order, c.src) && k <= |c.order| && i < |c.order|
  {
    c.src[c.order[i]].Dir? && Reached(c.Progress(k), c.t, c.order[i])
  }

  lemma WayOpenAt(c: Copy, k: nat)
    requires c.Valid() && k <= |c.order| && c.LandsUpTo(k)
    ensures Open(c.Progress(k), TargetRoute(c.cwd, c.stem)) && SameKinds(c.fs, c.Progress(k))
  {
    hide IsTree, IsFs, Target, ParentFirst, Distinct, Copy.Progress, TargetRoute;
    ProgressGrows(c, k);
    TargetIsWalk(c.fs, c.cwd, c.stem, c.t);
  }

  lemma {:induction false} PassedAt(c: Copy, start: Fs, u: nat, j: nat)
    requires c.Given() && u <= j < |c.order| && !VisitOk(c, start, j)
    ensures Same(start, Passed(c, start, u), c.t + c.order[j])
    decreases j - u
  {
    hide IsTree, IsFs, Target, ParentFirst, TargetRoute, Reached, Open;
    if u < j {
      PassedAt(c, start, u + 1, j);
      DifferentEntries(c, u, j);
    } else {
      forall i | j + 1 <= i < |c.order| ensures c.t + c.order[i] != c.t + c.order[j] {
        DifferentEntries(c, j, i);
      }
      PassedElsewhere(c, start, j + 1, c.t + c.order[j]);
    }
  }

  /**
   The pass after a failure: every directory of the copy that can be reached, made
   by it or not, has its permissions from the source, and nothing else has changed
   since the transfers stopped.
   */
  lemma PassAfterFailure(c: Copy, k: nat)
    requires c.Valid() && FirstFailure(c, k) && Passable(c)
    ensures
      var fs' := Passed(c, c.Progress(k), 0);
      && (forall j :: 0 <= j < |c.order| && Visited(c, k, j) ==> Has(fs', c.t + c.order[j], c.src[c.order[j]]))
      && (forall p {:trigger Same(c.Progress(k), fs', p)} ::
            (forall j :: 0 <= j < |c.order| && Visited(c, k, j) ==> c.t + c.order[j] != p) ==>
            Same(c.Progress(k), fs', p))
  {
    hide IsTree, IsFs, Target, ParentFirst, Distinct, Copy.Progress, Copy.Lands, Passed, Passable, Reached, VisitOk,
         Open, TargetRoute;
    WayOpenAt(c, k);
    var fs' := Passed(c, c.Progress(k), 0);
    forall j | 0 <= j < |c.order| && Visited(c, k, j) ensures Has(fs', c.t + c.order[j], c.src[c.order[j]]) {
      VisitedIfReached(c, c.Progress(k), j);
      OkIsSet(c, c.Progress(k), 0, j);
    }
    forall p | forall j :: 0 <= j < |c.order| && Visited(c, k, j) ==> c.t + c.order[j] != p
      ensures Same(c.Progress(k), fs', p)
    {
      if j :| 0 <= j < |c.order| && c.t + c.order[j] == p {
        VisitedIfReached(c, c.Progress(k), j);
        PassedAt(c, c.Progress(k), 0, j);
      } else {
        PassedElsewhere(c, c.Progress(k), 0, p);
      }
    }
  }
}
